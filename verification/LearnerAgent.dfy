/** The learner agent (paxos-wasm/agents/learner-agent/src/learner-agent.rs) in
    event-driven mode with acceptors sending the learns: record votes, execute,
    batch the results, ask again for missing slots. */
module LearnerAgents {
  import opened Prelude
  import opened PaxosTypes
  import opened Quorum
  import opened Journal
  import opened LearnerCore
  import opened KvMachine

  datatype AgentConfig = AgentConfig(
    storage: StorageConfig,
    numAcceptors: u64,
    learnersSendExecuted: bool,
    messageBatchSize: u64,
    retryIntervalMs: u64,
    learnMaxGap: u64,
    execIntervalMs: u64)
  {
    predicate Valid() { storage.Valid() }
  }

  /** `log` is a history variable: everything executed, in order.  `sent` is the
      Executed batches handed to the network, oldest first. */
  datatype AgentState = AgentState(
    learner: LearnerState,
    kv: Pairs,
    log: seq<LearnedEntry>,
    buffer: seq<ExecuteResult>,
    sent: seq<Executed>)

  function FreshAgent(): AgentState { AgentState(LearnerCore.Fresh(), map[], [], [], []) }

  function ExecuteChosen(cfg: AgentConfig, st: AgentState): AgentState
    requires cfg.Valid()
  {
    var (learner, batch) := ToBeExecuted(cfg.storage, st.learner);
    var (kv, results) := ApplyAll(st.kv, batch);
    st.(learner := learner, kv := kv, log := st.log + batch, buffer := st.buffer + results)
  }

  function Available(st: AgentState, batchSize: Option<u64>): nat {
    match batchSize
    case None => |st.buffer|
    case Some(n) => Min(|st.buffer|, n)
  }

  function Collect(st: AgentState, batchSize: Option<u64>, requireFull: bool): (AgentState, Executed) {
    var available := Available(st, batchSize);
    if requireFull && batchSize.Some? && available < batchSize.value
    then (st, Executed([], st.learner.adu))
    else (st.(buffer := st.buffer[available..]), Executed(st.buffer[..available], st.learner.adu))
  }

  function Dispatch(cfg: AgentConfig, st: AgentState, exec: Executed): AgentState {
    if !cfg.learnersSendExecuted || exec.results == [] then st
    else st.(sent := st.sent + [exec])
  }

  function CollectAndDispatch(cfg: AgentConfig, st: AgentState, requireFull: bool): AgentState {
    if !cfg.learnersSendExecuted then st
    else
      var (st', exec) := Collect(st, Some(cfg.messageBatchSize), requireFull);
      Dispatch(cfg, st', exec)
  }

  /** A Learn message; `w` is what the quorum count finds. */
  function OnLearn(cfg: AgentConfig, st: AgentState, slot: Slot, value: Value, sender: NodeId, w: Option<Value>): AgentState
    requires cfg.Valid()
  {
    var (learner, isNew) := HandleLearn(cfg.storage, st.learner, slot, value, sender, w);
    var st' := st.(learner := learner);
    if isNew then CollectAndDispatch(cfg, ExecuteChosen(cfg, st'), true) else st'
  }

  /** The execution half of a tick; `due` says the interval has passed. */
  function OnTick(cfg: AgentConfig, st: AgentState, due: bool): AgentState
    requires cfg.Valid()
  {
    if due then CollectAndDispatch(cfg, ExecuteChosen(cfg, st), false) else st
  }

  ghost predicate CanWin(cfg: AgentConfig, st: AgentState, slot: Slot, value: Value, sender: NodeId, w: Option<Value>) {
    Winner(Record(st.learner, slot, value, sender).votes[slot], QuorumSize(cfg.numAcceptors), w)
  }

  // ----- conservation of results ---------------------------------------------

  function SentResults(sent: seq<Executed>): seq<ExecuteResult> {
    if sent == [] then [] else SentResults(sent[..|sent| - 1]) + sent[|sent| - 1].results
  }

  ghost predicate SlotsInOrder(log: seq<LearnedEntry>) { forall i :: 0 <= i < |log| ==> log[i].slot == i + 1 }

  /** Nothing executed is lost, repeated or reordered on its way out. */
  ghost predicate Conserved(cfg: AgentConfig, st: AgentState) {
    && |st.log| == st.learner.adu
    && SlotsInOrder(st.log)
    && st.kv == Run(st.log)
    && SentResults(st.sent) + st.buffer == Results(st.log)
    && (forall i :: 0 <= i < |st.sent| ==>
          0 < |st.sent[i].results| <= cfg.messageBatchSize && st.sent[i].adu <= st.learner.adu)
  }

  lemma ResultsMoveToBuffer(out: seq<ExecuteResult>, buffer: seq<ExecuteResult>, log: seq<LearnedEntry>, batch: seq<LearnedEntry>)
    requires out + buffer == Results(log)
    ensures out + (buffer + ApplyAll(Run(log), batch).1) == Results(log + batch)
  {
    BatchExtendsRun(log, batch);
    ConcatAssociative(out, buffer, ApplyAll(Run(log), batch).1);
  }

  lemma BatchSlots(log: seq<LearnedEntry>, batch: seq<LearnedEntry>)
    requires SlotsInOrder(log) && forall i :: 0 <= i < |batch| ==> batch[i].slot == |log| + 1 + i
    ensures SlotsInOrder(log + batch)
  {
  }

  lemma BatchConserves(cfg: AgentConfig, st: AgentState, learner: LearnerState, batch: seq<LearnedEntry>)
    requires Conserved(cfg, st)
    requires learner.adu == st.learner.adu + |batch|
    requires forall i :: 0 <= i < |batch| ==> batch[i].slot == st.learner.adu + 1 + i
    ensures var (kv, results) := ApplyAll(st.kv, batch);
      Conserved(cfg, AgentState(learner, kv, st.log + batch, st.buffer + results, st.sent))
  {
    hide Results, Run, ApplyAll, SentResults, SlotsInOrder;
    BatchSlots(st.log, batch);
    BatchExtendsRun(st.log, batch);
    ResultsMoveToBuffer(SentResults(st.sent), st.buffer, st.log, batch);
  }

  lemma ExecuteConserves(cfg: AgentConfig, st: AgentState)
    requires cfg.Valid() && Conserved(cfg, st)
    ensures Conserved(cfg, ExecuteChosen(cfg, st))
  {
    ToBeExecutedFacts(cfg.storage, st.learner);
    var (learner, batch) := ToBeExecuted(cfg.storage, st.learner);
    BatchConserves(cfg, st, learner, batch);
  }

  lemma SentSnoc(sent: seq<Executed>, exec: Executed)
    ensures SentResults(sent + [exec]) == SentResults(sent) + exec.results
  {
    assert (sent + [exec])[..|sent|] == sent;
  }

  /** The oldest results are taken: all of them, or up to the batch size, or none when a
      full batch is asked for and not there. */
  lemma CollectTakes(st: AgentState, batchSize: Option<u64>, requireFull: bool)
    ensures var (st', exec) := Collect(st, batchSize, requireFull);
      && st' == st.(buffer := st'.buffer) && exec.results + st'.buffer == st.buffer && exec.adu == st.learner.adu
      && |exec.results| ==
           if batchSize == None then |st.buffer|
           else if requireFull && |st.buffer| < batchSize.value then 0
           else Min(|st.buffer|, batchSize.value)
  {
  }

  lemma CollectAndDispatchConserves(cfg: AgentConfig, st: AgentState, requireFull: bool)
    requires Conserved(cfg, st)
    ensures Conserved(cfg, CollectAndDispatch(cfg, st, requireFull))
    ensures CollectAndDispatch(cfg, st, requireFull).log == st.log
  {
    hide Collect, SentResults, Results, Run;
    if cfg.learnersSendExecuted {
      CollectTakes(st, Some(cfg.messageBatchSize), requireFull);
      var (st', exec) := Collect(st, Some(cfg.messageBatchSize), requireFull);
      if exec.results == [] {
        assert [] + st'.buffer == st'.buffer;
      } else {
        SentSnoc(st.sent, exec);
        ConcatAssociative(SentResults(st.sent), exec.results, st'.buffer);
      }
    }
  }

  /** Recording a vote and learning a value execute nothing. */
  lemma LearnConserves(cfg: AgentConfig, st: AgentState, slot: Slot, value: Value, sender: NodeId, w: Option<Value>)
    requires Conserved(cfg, st)
    ensures Conserved(cfg, st.(learner := HandleLearn(cfg.storage, st.learner, slot, value, sender, w).0))
  {
  }

  lemma OnLearnConserves(cfg: AgentConfig, st: AgentState, slot: Slot, value: Value, sender: NodeId, w: Option<Value>)
    requires cfg.Valid() && Conserved(cfg, st)
    ensures Conserved(cfg, OnLearn(cfg, st, slot, value, sender, w))
  {
    hide Conserved, HandleLearn, ExecuteChosen, CollectAndDispatch;
    var (learner, isNew) := HandleLearn(cfg.storage, st.learner, slot, value, sender, w);
    var st' := st.(learner := learner);
    LearnConserves(cfg, st, slot, value, sender, w);
    if isNew {
      ExecuteConserves(cfg, st');
      CollectAndDispatchConserves(cfg, ExecuteChosen(cfg, st'), true);
    }
  }

  lemma OnTickConserves(cfg: AgentConfig, st: AgentState, due: bool)
    requires cfg.Valid() && Conserved(cfg, st)
    ensures Conserved(cfg, OnTick(cfg, st, due))
  {
    if due {
      ExecuteConserves(cfg, st);
      CollectAndDispatchConserves(cfg, ExecuteChosen(cfg, st), false);
    }
  }

  datatype AgentEvent =
    | LearnEvent(slot: Slot, value: Value, sender: NodeId, winner: Option<Value>)
    | TickEvent(due: bool)

  function AgentRun(cfg: AgentConfig, events: seq<AgentEvent>): AgentState
    requires cfg.Valid()
  {
    if events == [] then FreshAgent() else OnEvent(cfg, AgentRun(cfg, events[..|events| - 1]), events[|events| - 1])
  }

  function OnEvent(cfg: AgentConfig, st: AgentState, event: AgentEvent): AgentState
    requires cfg.Valid()
  {
    match event
    case LearnEvent(slot, value, sender, winner) => OnLearn(cfg, st, slot, value, sender, winner)
    case TickEvent(due) => OnTick(cfg, st, due)
  }

  /** In every run the batches sent, followed by the buffer, are the results of
      slots 1 to the cursor, each computed on the state the earlier slots left. */
  lemma {:induction false} ExecutedResultsConserved(cfg: AgentConfig, events: seq<AgentEvent>)
    requires cfg.Valid()
    ensures var st := AgentRun(cfg, events);
      && |st.log| == st.learner.adu
      && |SentResults(st.sent) + st.buffer| == st.learner.adu
      && (forall i :: 0 <= i < st.learner.adu ==>
            && st.log[i].slot == i + 1
            && (SentResults(st.sent) + st.buffer)[i] == ResultOf(Run(st.log[..i]), st.log[i]))
      && (forall i :: 0 <= i < |st.sent| ==> 0 < |st.sent[i].results| <= cfg.messageBatchSize)
  {
    AgentRunConserves(cfg, events);
    var st := AgentRun(cfg, events);
    forall i | 0 <= i < |st.log| ensures Results(st.log)[i] == ResultOf(Run(st.log[..i]), st.log[i]) {
      ResultsAt(st.log, i);
    }
  }

  lemma {:induction false} AgentRunConserves(cfg: AgentConfig, events: seq<AgentEvent>)
    requires cfg.Valid()
    ensures Conserved(cfg, AgentRun(cfg, events))
  {
    if events != [] {
      var init := events[..|events| - 1];
      AgentRunConserves(cfg, init);
      match events[|events| - 1]
      case LearnEvent(slot, value, sender, winner) =>
        OnLearnConserves(cfg, AgentRun(cfg, init), slot, value, sender, winner);
      case TickEvent(due) =>
        OnTickConserves(cfg, AgentRun(cfg, init), due);
    }
  }

  // ----- asking again for missing slots ---------------------------------------

  type Millis = nat

  datatype RetryResult = NoGap | Skip(adu: Slot) | Retry(slots: seq<Slot>)

  datatype RetryState = RetryState(lastLearn: Millis, retries: map<Slot, Millis>)

  function Elapsed(now: Millis, since: Millis): Millis { if since <= now then now - since else 0 }

  predicate CooledDown(retries: map<Slot, Millis>, now: Millis, timeout: u64, slot: Slot) {
    slot !in retries || Elapsed(now, retries[slot]) >= timeout
  }

  /** The first `cap` cooled-down slots from `slot` to `highest`, learned or not. */
  function Scan(retries: map<Slot, Millis>, now: Millis, timeout: u64, slot: nat, highest: Slot, cap: nat): seq<Slot>
    decreases highest - slot
  {
    if highest < slot || cap == 0 then []
    else if CooledDown(retries, now, timeout, slot)
    then [slot] + Scan(retries, now, timeout, slot + 1, highest, cap - 1)
    else Scan(retries, now, timeout, slot + 1, highest, cap)
  }

  function Stamp(retries: map<Slot, Millis>, slots: seq<Slot>, now: Millis): map<Slot, Millis> {
    if slots == [] then retries
    else Stamp(retries, slots[..|slots| - 1], now)[slots[|slots| - 1] := now]
  }

  function EvaluateRetry(cfg: AgentConfig, st: RetryState, adu: Slot, highest: Slot, now: Millis): (RetryState, RetryResult) {
    if SaturatingSub(highest, adu) < cfg.learnMaxGap && Elapsed(now, st.lastLearn) < cfg.retryIntervalMs
    then (st, NoGap)
    else
      var slots := Scan(st.retries, now, cfg.retryIntervalMs, adu + 1, highest, cfg.messageBatchSize);
      if slots == [] then (st, Skip(adu))
      else (RetryState(now, Stamp(st.retries, slots, now)), Retry(slots))
  }

  /** Cooled-down slots in range, increasing, and none left out except beyond a full batch. */
  ghost predicate Picks(r: seq<Slot>, retries: map<Slot, Millis>, now: Millis, timeout: u64, slot: nat, highest: Slot, cap: nat) {
    && StrictlyIncreasing(r) && |r| <= cap
    && (forall s :: s in r ==> slot <= s <= highest && CooledDown(retries, now, timeout, s))
    && (forall s: Slot :: slot <= s <= highest && CooledDown(retries, now, timeout, s) ==>
          s in r || (|r| == cap && forall x :: x in r ==> x < s))
  }

  lemma {:induction false} ScanFacts(retries: map<Slot, Millis>, now: Millis, timeout: u64, slot: nat, highest: Slot, cap: nat)
    ensures Picks(Scan(retries, now, timeout, slot, highest, cap), retries, now, timeout, slot, highest, cap)
    decreases highest - slot
  {
    hide CooledDown, Picks;
    if slot <= highest && cap > 0 {
      if CooledDown(retries, now, timeout, slot) {
        ScanFacts(retries, now, timeout, slot + 1, highest, cap - 1);
        PickFirst(Scan(retries, now, timeout, slot + 1, highest, cap - 1), retries, now, timeout, slot, highest, cap);
      } else {
        ScanFacts(retries, now, timeout, slot + 1, highest, cap);
        PickLater(Scan(retries, now, timeout, slot + 1, highest, cap), retries, now, timeout, slot, highest, cap);
      }
    } else {
      PickNone(retries, now, timeout, slot, highest, cap);
    }
  }

  lemma PickFirst(rest: seq<Slot>, retries: map<Slot, Millis>, now: Millis, timeout: u64, slot: Slot, highest: Slot, cap: nat)
    requires 0 < cap && slot <= highest && CooledDown(retries, now, timeout, slot)
    requires Picks(rest, retries, now, timeout, slot + 1, highest, cap - 1)
    ensures Picks([slot] + rest, retries, now, timeout, slot, highest, cap)
  {
    hide CooledDown;
    var r := [slot] + rest;
    forall i, j | 0 <= i < j < |r| ensures r[i] < r[j] {
      assert r[j] == rest[j - 1] && rest[j - 1] in rest;
    }
    assert forall s :: s in r <==> s == slot || s in rest;
  }

  lemma PickLater(r: seq<Slot>, retries: map<Slot, Millis>, now: Millis, timeout: u64, slot: Slot, highest: Slot, cap: nat)
    requires !CooledDown(retries, now, timeout, slot) && Picks(r, retries, now, timeout, slot + 1, highest, cap)
    ensures Picks(r, retries, now, timeout, slot, highest, cap)
  {
    hide CooledDown;
  }

  lemma PickNone(retries: map<Slot, Millis>, now: Millis, timeout: u64, slot: nat, highest: Slot, cap: nat)
    requires highest < slot || cap == 0
    ensures Picks([], retries, now, timeout, slot, highest, cap)
  {
  }

  lemma {:induction false} StampFacts(retries: map<Slot, Millis>, slots: seq<Slot>, now: Millis, s: Slot)
    ensures var r := Stamp(retries, slots, now);
      && (s in slots ==> s in r && r[s] == now)
      && (s !in slots ==> (s in r <==> s in retries) && (s in r ==> r[s] == retries[s]))
  {
    if slots != [] {
      var init := slots[..|slots| - 1];
      assert slots == init + [slots[|slots| - 1]];
      StampFacts(retries, init, now, s);
    }
  }

  function HighestLearned(learned: map<Slot, Value>): (highest: Slot)
    ensures forall s :: s in learned ==> s <= highest
    ensures if learned.Keys == {} then highest == 0 else highest in learned
  {
    if learned.Keys == {} then 0 else MaxOf(learned.Keys)
  }

  datatype RetryEvent =
    | NewLearn(now: Millis)
    | Evaluate(now: Millis, adu: Slot, highest: Slot)

  datatype Asked = Asked(at: Millis, slots: seq<Slot>, adu: Slot, highest: Slot)

  /** The retry state after a run that began at `start`, and every request sent. */
  function RetryRun(cfg: AgentConfig, start: Millis, events: seq<RetryEvent>): (RetryState, seq<Asked>) {
    if events == [] then (RetryState(start, map[]), [])
    else
      var (st, asked) := RetryRun(cfg, start, events[..|events| - 1]);
      match events[|events| - 1]
      case NewLearn(now) => (st.(lastLearn := now), asked)
      case Evaluate(now, adu, highest) =>
        var (st', r) := EvaluateRetry(cfg, st, adu, highest, now);
        (st', if r.Retry? then asked + [Asked(now, r.slots, adu, highest)] else asked)
  }

  ghost predicate ClockForward(events: seq<RetryEvent>) {
    forall i, j :: 0 <= i < j < |events| ==> events[i].now <= events[j].now
  }

  ghost predicate Remembered(st: RetryState, asked: seq<Asked>, now: Millis) {
    && (forall s :: s in st.retries ==> st.retries[s] <= now)
    && (forall i, s :: 0 <= i < |asked| && s in asked[i].slots ==> s in st.retries && asked[i].at <= st.retries[s])
  }

  ghost predicate RateLimited(cfg: AgentConfig, asked: seq<Asked>) {
    && (forall i :: 0 <= i < |asked| ==>
          && 0 < |asked[i].slots| <= cfg.messageBatchSize
          && StrictlyIncreasing(asked[i].slots)
          && forall s :: s in asked[i].slots ==> asked[i].adu < s <= asked[i].highest)
    && (forall i, j, s :: 0 <= i < j < |asked| && s in asked[i].slots && s in asked[j].slots ==>
          asked[i].at + cfg.retryIntervalMs <= asked[j].at)
  }

  lemma RequestStaysLimited(cfg: AgentConfig, st: RetryState, asked: seq<Asked>, before: Millis, request: Asked)
    requires before <= request.at && Remembered(st, asked, before) && RateLimited(cfg, asked)
    requires 0 < |request.slots| <= cfg.messageBatchSize && StrictlyIncreasing(request.slots)
    requires forall s :: s in request.slots ==>
      request.adu < s <= request.highest && CooledDown(st.retries, request.at, cfg.retryIntervalMs, s)
    ensures RateLimited(cfg, asked + [request])
  {
    var asked' := asked + [request];
    forall i, j, s | 0 <= i < j < |asked'| && s in asked'[i].slots && s in asked'[j].slots
      ensures asked'[i].at + cfg.retryIntervalMs <= asked'[j].at
    {
      if j == |asked| {
        assert s in asked[i].slots;
        assert CooledDown(st.retries, request.at, cfg.retryIntervalMs, s);
      } else {
        assert asked'[i] == asked[i] && asked'[j] == asked[j];
      }
    }
  }

  lemma RequestIsRemembered(st: RetryState, asked: seq<Asked>, before: Millis, request: Asked)
    requires before <= request.at && Remembered(st, asked, before)
    ensures Remembered(RetryState(request.at, Stamp(st.retries, request.slots, request.at)), asked + [request], request.at)
  {
    var retries := Stamp(st.retries, request.slots, request.at);
    forall s: Slot
      ensures s in request.slots ==> s in retries && retries[s] == request.at
      ensures s !in request.slots ==> (s in retries <==> s in st.retries) && (s in retries ==> retries[s] == st.retries[s])
    {
      StampFacts(st.retries, request.slots, request.at, s);
    }
    var asked' := asked + [request];
    forall i, s | 0 <= i < |asked'| && s in asked'[i].slots ensures s in retries && asked'[i].at <= retries[s] {
      if i < |asked| {
        assert asked'[i] == asked[i];
      }
    }
  }

  lemma EvaluateStaysLimited(cfg: AgentConfig, st: RetryState, asked: seq<Asked>, adu: Slot, highest: Slot, before: Millis, now: Millis)
    requires before <= now && Remembered(st, asked, before) && RateLimited(cfg, asked)
    ensures var (st', r) := EvaluateRetry(cfg, st, adu, highest, now);
      var asked' := if r.Retry? then asked + [Asked(now, r.slots, adu, highest)] else asked;
      Remembered(st', asked', now) && RateLimited(cfg, asked')
  {
    var (st', r) := EvaluateRetry(cfg, st, adu, highest, now);
    if r.Retry? {
      ScanFacts(st.retries, now, cfg.retryIntervalMs, adu + 1, highest, cfg.messageBatchSize);
      var request := Asked(now, r.slots, adu, highest);
      RequestIsRemembered(st, asked, before, request);
      RequestStaysLimited(cfg, st, asked, before, request);
    }
  }

  /** In every run on a clock that does not go back, requests are short, ordered and
      inside the gap, and the same slot is asked for at most once an interval. */
  lemma {:induction false} RetriesAreRateLimited(cfg: AgentConfig, start: Millis, events: seq<RetryEvent>)
    requires ClockForward(events)
    ensures RateLimited(cfg, RetryRun(cfg, start, events).1)
    ensures Remembered(RetryRun(cfg, start, events).0, RetryRun(cfg, start, events).1,
                       if events == [] then 0 else events[|events| - 1].now)
  {
    if events != [] {
      var init := events[..|events| - 1];
      var (st, asked) := RetryRun(cfg, start, init);
      assert forall i :: 0 <= i < |init| ==> init[i] == events[i];
      RetriesAreRateLimited(cfg, start, init);
      var before := if init == [] then 0 else init[|init| - 1].now;
      match events[|events| - 1]
      case NewLearn(now) =>
      case Evaluate(now, adu, highest) =>
        EvaluateStaysLimited(cfg, st, asked, adu, highest, before, now);
    }
  }

  // ----- the object ------------------------------------------------------------

  function Commands(batch: seq<LearnedEntry>): seq<Option<Operation>> {
    seq(|batch|, i requires 0 <= i < |batch| => batch[i].value.command)
  }

  lemma NothingApplied(store: Pairs)
    ensures ApplyAll(store, []) == (store, []) && Commands([]) == []
  {
  }

  lemma OneMoreApplied(store: Pairs, batch: seq<LearnedEntry>, i: nat)
    requires i < |batch|
    ensures var (mid, results) := ApplyAll(store, batch[..i]);
      ApplyAll(store, batch[..i + 1]) == (Apply(mid, batch[i].value.command).0, results + [ResultOf(mid, batch[i])])
    ensures Commands(batch[..i + 1]) == Commands(batch[..i]) + [batch[i].value.command]
  {
    assert batch[..i + 1][..i] == batch[..i];
  }

  class LearnerAgent {
    const cfg: AgentConfig
    const learner: MyLearner
    const kvStore: KvStore
    ghost var log: seq<LearnedEntry>
    var execBuffer: seq<ExecuteResult>
    var sentExecuted: seq<Executed>
    var sentRetries: seq<seq<Slot>>
    var lastLearnTime: Millis
    var retries: map<Slot, Millis>
    var lastExecTime: Millis

    ghost predicate Valid()
      reads this, learner
    {
      && cfg.Valid() && learner.Valid()
      && learner.cfg == cfg.storage && learner.numAcceptors == cfg.numAcceptors
    }

    ghost function State(): AgentState
      reads this, learner, learner.storage, kvStore
    {
      AgentState(learner.State(), kvStore.store, log, execBuffer, sentExecuted)
    }

    ghost function Retrying(): RetryState
      reads this
    {
      RetryState(lastLearnTime, retries)
    }

    constructor (cfg: AgentConfig, snapshots: seq<Snapshot<Value>>, changes: seq<Entry<Value>>, now: Millis)
      requires cfg.Valid()
      ensures Valid() && this.cfg == cfg && fresh(learner) && fresh(learner.storage) && fresh(kvStore)
      ensures State() == AgentState(
        LearnerCore.Load(cfg.storage, LearnerState(map[], map[], 0, Store(0, 0, snapshots, changes))), map[], [], [], [])
      ensures Retrying() == RetryState(now, map[])
    {
      this.cfg := cfg;
      var l := new MyLearner(cfg.storage, cfg.numAcceptors, snapshots, changes);
      l.LoadState();
      learner := l;
      kvStore := new KvStore();
      log, execBuffer, sentExecuted, sentRetries := [], [], [], [];
      lastLearnTime, retries, lastExecTime := now, map[], now;
    }

    method RecordLearn(slot: Slot, value: Value, sender: NodeId, now: Millis) returns (wasNew: bool)
      requires Valid()
      modifies this`lastLearnTime, learner, learner.storage
      ensures Valid()
      ensures exists w ::
        && CanWin(cfg, old(State()), slot, value, sender, w)
        && State() == old(State()).(learner := HandleLearn(cfg.storage, old(State()).learner, slot, value, sender, w).0)
        && wasNew == HandleLearn(cfg.storage, old(State()).learner, slot, value, sender, w).1
      ensures Retrying() == if wasNew then old(Retrying()).(lastLearn := now) else old(Retrying())
    {
      ghost var before := State();
      wasNew := learner.HandleVote(slot, value, sender);
      ghost var w :| Winner(Record(before.learner, slot, value, sender).votes[slot], QuorumSize(cfg.numAcceptors), w)
        && (learner.State(), wasNew) == HandleLearn(cfg.storage, before.learner, slot, value, sender, w);
      assert CanWin(cfg, before, slot, value, sender, w);
      if wasNew {
        lastLearnTime := now;
      }
    }

    method ExecuteChosenLearns()
      requires Valid()
      modifies this`log, this`execBuffer, learner, learner.storage, kvStore
      ensures Valid() && State() == ExecuteChosen(cfg, old(State()))
      ensures kvStore.history == old(kvStore.history) + Commands(ToBeExecuted(cfg.storage, old(State()).learner).1)
    {
      hide ApplyAll, Commands, Apply, ToBeExecuted;
      ghost var before := State();
      var entries := learner.Executable();
      NothingApplied(before.kv);
      for i := 0 to |entries|
        invariant Valid() && learner.State() == ToBeExecuted(cfg.storage, before.learner).0
        invariant log == before.log
        invariant kvStore.store == ApplyAll(before.kv, entries[..i]).0
        invariant execBuffer == before.buffer + ApplyAll(before.kv, entries[..i]).1
        invariant kvStore.history == old(kvStore.history) + Commands(entries[..i])
      {
        var le := entries[i];
        var r := kvStore.ApplyCommand(le.value.command);
        execBuffer := execBuffer + [ExecuteResult(le.value, le.slot, r != NoOp, r)];
        OneMoreApplied(before.kv, entries, i);
      }
      assert entries[..|entries|] == entries;
      log := log + entries;
    }

    method CollectExecuted(batchSize: Option<u64>, requireFull: bool) returns (exec: Executed)
      requires Valid()
      modifies this`execBuffer
      ensures (State(), exec) == Collect(old(State()), batchSize, requireFull)
    {
      var available := match batchSize case Some(n) => Min(|execBuffer|, n) case None => |execBuffer|;
      if requireFull && batchSize.Some? && available < batchSize.value {
        return Executed([], learner.adu);
      }
      var results := [];
      while |results| < available
        invariant |results| <= available
        invariant results + execBuffer == old(execBuffer)
      {
        results := results + [execBuffer[0]];
        execBuffer := execBuffer[1..];
      }
      assert results == old(execBuffer)[..available] && execBuffer == old(execBuffer)[available..];
      return Executed(results, learner.adu);
    }

    method DispatchExecuted(exec: Executed)
      requires Valid()
      modifies this`sentExecuted
      ensures State() == Dispatch(cfg, old(State()), exec)
    {
      if !cfg.learnersSendExecuted || exec.results == [] {
        return;
      }
      sentExecuted := sentExecuted + [exec];
    }

    method HandleLearnMessage(slot: Slot, value: Value, sender: NodeId, now: Millis)
      requires Valid()
      modifies this`log, this`execBuffer, this`sentExecuted, this`lastLearnTime, learner, learner.storage, kvStore
      ensures Valid()
      ensures exists w ::
        && CanWin(cfg, old(State()), slot, value, sender, w)
        && State() == OnLearn(cfg, old(State()), slot, value, sender, w)
        && lastLearnTime ==
             if HandleLearn(cfg.storage, old(State()).learner, slot, value, sender, w).1 then now else old(lastLearnTime)
    {
      ghost var before := State();
      var isNew := RecordLearn(slot, value, sender, now);
      ghost var w :|
        && CanWin(cfg, before, slot, value, sender, w)
        && State() == before.(learner := HandleLearn(cfg.storage, before.learner, slot, value, sender, w).0)
        && isNew == HandleLearn(cfg.storage, before.learner, slot, value, sender, w).1;
      if isNew {
        ExecuteChosenLearns();
        FlushExecuted(true);
      }
      assert State() == OnLearn(cfg, before, slot, value, sender, w);
    }

    /** Picks up to a batch of cooled-down slots and stamps each as it is picked. */
    method PickSlots(now: Millis, highest: Slot) returns (toRetry: seq<Slot>)
      requires Valid()
      modifies this`retries
      ensures toRetry == Scan(old(retries), now, cfg.retryIntervalMs, learner.adu + 1, highest, cfg.messageBatchSize)
      ensures retries == Stamp(old(retries), toRetry, now)
    {
      var timeout := cfg.retryIntervalMs;
      var cap := cfg.messageBatchSize;
      toRetry := [];
      var slot: nat := learner.adu + 1;
      ghost var before := retries;
      ghost var all := Scan(before, now, timeout, slot, highest, cap);
      while slot <= highest && |toRetry| < cap
        invariant |toRetry| <= cap
        invariant toRetry + Scan(before, now, timeout, slot, highest, cap - |toRetry|) == all
        invariant retries == Stamp(before, toRetry, now)
        invariant forall s :: s in toRetry ==> s < slot
        decreases highest - slot
      {
        StampFacts(before, toRetry, now, slot);
        var slotElapsed: nat := if slot in retries then Elapsed(now, retries[slot]) else timeout as int + 1;
        if slotElapsed >= timeout {
          assert (toRetry + [slot])[..|toRetry|] == toRetry;
          assert toRetry + ([slot] + Scan(before, now, timeout, slot + 1, highest, cap - |toRetry| - 1))
              == (toRetry + [slot]) + Scan(before, now, timeout, slot + 1, highest, cap - |toRetry| - 1);
          toRetry := toRetry + [slot];
          retries := retries[slot := now];
        }
        slot := slot + 1;
      }
    }

    method EvaluateRetries(now: Millis) returns (r: RetryResult)
      requires Valid()
      modifies this`retries, this`lastLearnTime
      ensures (Retrying(), r) == EvaluateRetry(cfg, old(Retrying()), learner.adu, HighestLearned(learner.learned), now)
    {
      var highest := HighestLearned(learner.learned);
      var adu := learner.adu;
      if SaturatingSub(highest, adu) < cfg.learnMaxGap && Elapsed(now, lastLearnTime) < cfg.retryIntervalMs {
        return NoGap;
      }
      var toRetry := PickSlots(now, highest);
      if toRetry == [] {
        return Skip(adu);
      }
      lastLearnTime := now;
      return Retry(toRetry);
    }

    method HandleTick(now: Millis)
      requires Valid()
      modifies this, learner, learner.storage, kvStore
      ensures Valid()
      ensures State() == OnTick(cfg, old(State()), Elapsed(now, old(lastExecTime)) >= cfg.execIntervalMs)
      ensures var (retrying, r) :=
          EvaluateRetry(cfg, old(Retrying()), old(learner.adu), HighestLearned(old(learner.learned)), now);
        Retrying() == retrying && sentRetries == old(sentRetries) + if r.Retry? then [r.slots] else []
      ensures lastExecTime == if Elapsed(now, old(lastExecTime)) >= cfg.execIntervalMs then now else old(lastExecTime)
    {
      ghost var before := State();
      var r := EvaluateRetries(now);
      if r.Retry? {
        sentRetries := sentRetries + [r.slots];
      }
      if Elapsed(now, lastExecTime) < cfg.execIntervalMs {
        return;
      }
      lastExecTime := now;
      assert State() == before;
      ExecuteChosenLearns();
      FlushExecuted(false);
    }

    method FlushExecuted(requireFull: bool)
      requires Valid()
      modifies this`execBuffer, this`sentExecuted
      ensures State() == CollectAndDispatch(cfg, old(State()), requireFull)
    {
      if cfg.learnersSendExecuted {
        var exec := CollectExecuted(Some(cfg.messageBatchSize), requireFull);
        if exec.results != [] {
          DispatchExecuted(exec);
        }
      }
    }
  }
}
