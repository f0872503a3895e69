/** When the learner agent sends the results of what it executed, told from the results of
    its log and what was sent before. */
module Delivery {
  import opened Prelude
  import opened PaxosTypes
  import opened Journal
  import opened LearnerCore
  import opened KvMachine
  import opened LearnerAgents

  /** The results of the log that no batch has taken yet. */
  function Unsent(sent: seq<Executed>, log: seq<LearnedEntry>): seq<ExecuteResult> {
    if |SentResults(sent)| <= |log| then Results(log)[|SentResults(sent)|..] else []
  }

  /** The oldest `n` unsent results went out as one batch, and the rest is buffered. */
  ghost predicate Sends(st: AgentState, st': AgentState, n: nat) {
    var unsent := Unsent(st.sent, st'.log);
    && n <= |unsent|
    && st'.sent == st.sent + (if n == 0 then [] else [Executed(unsent[..n], st'.learner.adu)])
    && st'.buffer == unsent[n..]
  }

  /** The log went on through the learned slots, up to the first gap. */
  ghost predicate Executes(st: AgentState, learned: map<Slot, Value>, st': AgentState) {
    && st.log <= st'.log && |st'.log| == st'.learner.adu
    && (forall k :: |st.log| <= k < |st'.log| ==>
          st'.log[k].slot == k + 1 && st'.log[k].slot in learned && st'.log[k].value == learned[st'.log[k].slot])
    && st'.learner.adu + 1 !in learned
    && st'.kv == Run(st'.log)
  }

  /** How much one flush may take: a full batch, or with partial batches allowed whatever
      there is up to one. */
  function Taken(cfg: AgentConfig, unsent: nat, requireFull: bool): nat {
    if !cfg.learnersSendExecuted || (requireFull && unsent < cfg.messageBatchSize) then 0
    else Min(unsent, cfg.messageBatchSize)
  }

  lemma BufferIsUnsent(cfg: AgentConfig, st: AgentState)
    requires Conserved(cfg, st)
    ensures st.buffer == Unsent(st.sent, st.log)
  {
    hide SentResults, Results, Run, SlotsInOrder;
    assert (SentResults(st.sent) + st.buffer)[|SentResults(st.sent)|..] == st.buffer;
  }

  lemma ExecutionReachesTheGap(cfg: AgentConfig, st: AgentState)
    requires cfg.Valid() && Conserved(cfg, st)
    ensures var st' := ExecuteChosen(cfg, st);
      Executes(st, st.learner.learned, st') && Conserved(cfg, st') && st'.sent == st.sent
      && st'.learner.adu + 1 !in st'.learner.learned
  {
    hide ToBeExecuted, ApplyAll, SentResults, Results, Run;
    ExecuteConserves(cfg, st);
    BatchReachesTheGap(cfg.storage, st.learner);
    var (st', batch) := (ExecuteChosen(cfg, st), ToBeExecuted(cfg.storage, st.learner).1);
    forall k | |st.log| <= k < |st'.log|
      ensures st'.log[k].slot == k + 1 && st'.log[k].slot in st.learner.learned
      ensures st'.log[k].value == st.learner.learned[st'.log[k].slot]
    {
      assert st'.log[k] == batch[k - |st.log|];
    }
  }

  lemma ExecutesAlike(st: AgentState, learned: map<Slot, Value>, mid: AgentState, st': AgentState)
    requires Executes(st, learned, mid) && st'.log == mid.log && st'.learner == mid.learner && st'.kv == mid.kv
    ensures Executes(st, learned, st')
  {
  }

  lemma BatchReachesTheGap(cfg: StorageConfig, st: LearnerState)
    requires cfg.Valid()
    ensures var (st', batch) := ToBeExecuted(cfg, st);
      && st'.adu == st.adu + |batch| && st'.adu + 1 !in st.learned && st'.adu + 1 !in st'.learned
      && forall i :: 0 <= i < |batch| ==>
           batch[i].slot == st.adu + 1 + i && batch[i].slot in st.learned && batch[i].value == st.learned[batch[i].slot]
  {
    ToBeExecutedFacts(cfg, st);
  }

  lemma FlushTakes(cfg: AgentConfig, st: AgentState, st0: AgentState, requireFull: bool)
    requires Conserved(cfg, st) && st0.sent == st.sent
    ensures var st' := CollectAndDispatch(cfg, st, requireFull);
      && Sends(st0, st', Taken(cfg, |Unsent(st.sent, st.log)|, requireFull))
      && st'.log == st.log && st'.learner == st.learner && st'.kv == st.kv
  {
    hide Conserved, Unsent;
    BufferIsUnsent(cfg, st);
  }

  /** A due tick executes up to the first gap, and sends the oldest unsent results as one
      batch, up to the batch size, if there are any; a tick that is not due does nothing. */
  lemma TickDelivers(cfg: AgentConfig, st: AgentState)
    requires cfg.Valid() && Conserved(cfg, st)
    ensures OnTick(cfg, st, false) == st
    ensures var st' := OnTick(cfg, st, true);
      && Executes(st, st.learner.learned, st') && st'.learner.adu + 1 !in st'.learner.learned
      && Sends(st, st', Taken(cfg, |Unsent(st.sent, st'.log)|, false))
  {
    hide Conserved, ExecuteChosen, CollectAndDispatch, Sends, Taken, Unsent, Run;
    ExecutionReachesTheGap(cfg, st);
    FlushTakes(cfg, ExecuteChosen(cfg, st), st, false);
    ExecutesAlike(st, st.learner.learned, ExecuteChosen(cfg, st), OnTick(cfg, st, true));
  }

  /** A learn that is new executes up to the first gap, and sends exactly one full batch
      if that many results are unsent; any other learn executes and sends nothing. */
  lemma LearnDelivers(cfg: AgentConfig, st: AgentState, slot: Slot, value: Value, sender: NodeId, w: Option<Value>)
    requires cfg.Valid() && Conserved(cfg, st)
    ensures var st' := OnLearn(cfg, st, slot, value, sender, w);
      if w.Some? && slot !in st.learner.learned then
        && Executes(st, st.learner.learned[slot := w.value], st') && st'.learner.adu + 1 !in st'.learner.learned
        && Sends(st, st', Taken(cfg, |Unsent(st.sent, st'.log)|, true))
      else
        st' == st.(learner := st'.learner) && st'.learner.learned == st.learner.learned && st'.learner.adu == st.learner.adu
  {
    hide Conserved, ExecuteChosen, CollectAndDispatch, Sends, Taken, Unsent, Run, SaveChange;
    LearnConserves(cfg, st, slot, value, sender, w);
    var (learner, isNew) := HandleLearn(cfg.storage, st.learner, slot, value, sender, w);
    if isNew {
      var mid := st.(learner := learner);
      ExecutionReachesTheGap(cfg, mid);
      FlushTakes(cfg, ExecuteChosen(cfg, mid), st, true);
      assert Executes(st, mid.learner.learned, ExecuteChosen(cfg, mid));
      ExecutesAlike(st, mid.learner.learned, ExecuteChosen(cfg, mid), OnLearn(cfg, st, slot, value, sender, w));
    }
  }

  /** Over runs, from one event to the next. */
  lemma DeliveriesAreExact(cfg: AgentConfig, events: seq<AgentEvent>, event: AgentEvent)
    requires cfg.Valid()
    ensures var (st, st') := (AgentRun(cfg, events), AgentRun(cfg, events + [event]));
      var isNew := event.LearnEvent? && event.winner.Some? && event.slot !in st.learner.learned;
      var learned := if isNew then st.learner.learned[event.slot := event.winner.value] else st.learner.learned;
      if isNew || (event.TickEvent? && event.due) then
        Executes(st, learned, st') && Sends(st, st', Taken(cfg, |Unsent(st.sent, st'.log)|, event.LearnEvent?))
      else
        st' == st.(learner := st'.learner) && st'.learner.learned == learned && st'.learner.adu == st.learner.adu
  {
    hide Conserved, OnLearn, OnTick, Executes, Sends, Taken, Unsent;
    var st := AgentRun(cfg, events);
    AgentRunConserves(cfg, events);
    RunSnoc(cfg, events, event);
    match event
    case LearnEvent(slot, value, sender, winner) => LearnDelivers(cfg, st, slot, value, sender, winner);
    case TickEvent(due) => TickDelivers(cfg, st);
  }

  lemma RunSnoc(cfg: AgentConfig, events: seq<AgentEvent>, event: AgentEvent)
    requires cfg.Valid()
    ensures AgentRun(cfg, events + [event]) == OnEvent(cfg, AgentRun(cfg, events), event)
  {
    assert (events + [event])[..|events|] == events;
  }

  // ----- the buffer empties -----------------------------------------------------------

  function DueTicks(events: seq<AgentEvent>): nat {
    if events == [] then 0
    else DueTicks(events[..|events| - 1]) + if events[|events| - 1] == TickEvent(true) then 1 else 0
  }

  /** The log only grows, and an event that leaves it alone adds nothing to the buffer; a due
      tick then takes a batch off it. */
  lemma EventDrains(cfg: AgentConfig, events: seq<AgentEvent>, event: AgentEvent)
    requires cfg.Valid()
    ensures var (st, st') := (AgentRun(cfg, events), AgentRun(cfg, events + [event]));
      && st.log <= st'.log
      && (st'.log == st.log ==>
            && |st'.buffer| <= |st.buffer|
            && (event == TickEvent(true) && cfg.learnersSendExecuted ==>
                  |st'.buffer| <= Max(0, |st.buffer| - cfg.messageBatchSize)))
  {
    hide Conserved, AgentRun, Unsent, Run;
    DeliveriesAreExact(cfg, events, event);
    AgentRunConserves(cfg, events);
    BufferIsUnsent(cfg, AgentRun(cfg, events));
  }

  lemma {:induction false} TicksDrain(cfg: AgentConfig, events: seq<AgentEvent>, more: seq<AgentEvent>)
    requires cfg.Valid() && cfg.learnersSendExecuted
    ensures var (st, st') := (AgentRun(cfg, events), AgentRun(cfg, events + more));
      && st.log <= st'.log
      && (st'.log == st.log ==> |st'.buffer| <= Max(0, |st.buffer| - DueTicks(more) * cfg.messageBatchSize))
  {
    hide AgentRun;
    if more == [] {
      assert events + more == events;
    } else {
      var (init, last) := (more[..|more| - 1], more[|more| - 1]);
      assert events + more == (events + init) + [last];
      TicksDrain(cfg, events, init);
      EventDrains(cfg, events + init, last);
      var (k, size) := (DueTicks(init), cfg.messageBatchSize);
      assert (k + 1) * size == k * size + size;
    }
  }

  /** Everything is sent in the end: after due ticks enough for the results that were
      buffered, while nothing more is executed, the buffer is empty and the batches sent
      are the results of slots 1 to the cursor. */
  lemma EverythingIsSent(cfg: AgentConfig, events: seq<AgentEvent>, more: seq<AgentEvent>)
    requires cfg.Valid() && cfg.learnersSendExecuted
    requires AgentRun(cfg, events + more).log == AgentRun(cfg, events).log
    requires |AgentRun(cfg, events).buffer| <= DueTicks(more) * cfg.messageBatchSize
    ensures var st' := AgentRun(cfg, events + more);
      st'.buffer == [] && SentResults(st'.sent) == Results(st'.log) && |st'.log| == st'.learner.adu
  {
    hide AgentRun, SentResults, Results, Run, SlotsInOrder;
    TicksDrain(cfg, events, more);
    AgentRunConserves(cfg, events + more);
    var st' := AgentRun(cfg, events + more);
    assert SentResults(st'.sent) + [] == SentResults(st'.sent);
  }
}
