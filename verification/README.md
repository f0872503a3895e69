# A Dafny model of paxos-wasm

This project models the multi-slot replicated log of `paxos-wasm/` and proves what it is
for: that learners execute the same log, exactly when a crash loses nothing, which
messages survive the wire, and that the detectors agree with what was heard.

The parts, and the files they are in:

- **The replicated log.** `Acceptor.dfy`, `Learner.dfy`, `KvStore.dfy`, `PromiseRound.dfy` and
  `LearnerAgent.dfy` hold the nodes, each as a class proved against transition functions on
  values. `Protocol.dfy` puts them into one state machine: the network is a growing set of
  messages that may be delivered late, repeatedly, out of order or never, and proposers are
  adversaries that may send any Prepare and any Accept at any moment. `Safety.dfy` proves
  agreement, replication and the promise properties over all runs, for the slots that acceptors
  have not pruned; `OneVote.dfy` and `Replication.dfy` prove exactly which systems replicate
  whatever is pruned. `Delivery.dfy` and `Retries.dfy` say when a learner sends results and asks
  again, from its history alone. Accepting never raises the promised ballot in this system, so the usual
  Paxos invariant does not hold of it. What does hold is that a stored value is never replaced
  and that a report is exact below its ballot.
  Acceptors named as restarting are given new slots in order and may crash, whenever their disk
  gives everything back.
- **Crash recovery.** `Journal.dfy` is the storage helper that acceptor and learner both carry
  (the two copies do the same thing to a slot-indexed map, so it is modelled once, generically).
  `Windows.dfy` describes what it keeps when slots arrive in order, `Recovery.dfy` proves exactly
  when reloading gives back the live state, `HostStorage.dfy` is the disk with its length-prefixed
  changelog and rotated snapshot files, and `DiskRecovery.dfy` joins the two: from the bytes the
  requests of a run left on disk back to the state in memory.
- **TCP framing.** `Bytes.dfy` and `Framing.dfy`: the incremental decoder against one-shot parsing.
- **The wire text.** `Text.dfy` and `Serializer.dfy` hold the printers and parsers,
  `Deserializer.dfy` the loops of the parsers proved equal to them, `WireFormat.dfy`,
  `WireRoundTrip.dfy` and `WireExact.dfy` the round trip in both directions, `WireGrammar.dfy` which
  texts are read as which message, `Transport.dfy` whole streams of messages over a cut-up
  connection.
- **The detectors.** `Detectors.dfy` and `DetectorRuns.dfy`: failure and leader detection against
  the history of heartbeats.

The mode modelled is event driven with acceptors sending the learns. Clocks, snapshot
timestamps, the order in which hash maps are walked and the text and binary encoders are
parameters; every result holds for all of them. Slots, ballots and ids are 64-bit. An acceptor
also returns its acknowledgement to whoever called it; the model puts that reply on the network
together with the value it answers, so that later promises can be compared with it.

Four properties one might expect are false of the code; each is stated with its exact
condition and, where a reader needs it, a concrete witness.

- A restart does not always restore the acceptor: without a promise file nothing is restored
  (`MissingPromiseFileForgets`), slots forgotten that way can come back later
  (`ForgottenSlotsReturn`), and low slots are lost when fewer snapshots are loaded than memory
  reaches back. `RecoveryIsExact` has the condition, for every run that brought nothing back, and
  `RecoveryIsExactBySlots` for those that brought back nothing contradictory.
  The loader means to tolerate a missing file (paxos-wasm/core/acceptor/src/acceptor.rs:375) but looks for the lower-case
  words "no such file", while the error text of the operating system starts with "No such
  file", so the code's actual path is the error return.
- A round trip of the wire text fails for some messages. `TextRoundTrip` says which: commas and
  double pipes in any text, pipes and closing brackets in list entries, Set commands, empty retry
  lists, the result text "none", and promise entries that hold a value without a command. An
  opening bracket or a single pipe outside a list does no harm. `SetsAreLost` is the plainest case.
- The checker does not report the leader change when the last candidate dies, and may then name
  a leader that is dead as well (`LastCandidateDies`). `CheckerReportsLeaderChanges` has the condition.
- A slot that an acceptor has pruned can take a second value, and learners that lag behind the
  pruning can then execute different values. `ReplicatesIffSteady` says in which systems, and
  `UnsteadyParts` gives the run.

The comment above the retry scan (paxos-wasm/agents/learner-agent/src/learner-agent.rs:314) speaks of missing slots; the loop also
asks for slots already learned but not yet executed, and the model does the same.

`dafny verify dfyconfig.toml` checks everything.

## Model

| member | source | states |
|---|---|---|
| Safety.Agreement | paxos-wasm/core/acceptor/src/acceptor.rs:134-205 | For every run, every proposer behaviour and every interleaving, with acceptors crashing and restarting: if a majority of acceptors holds `u` for a slot at one moment and a majority holds `v` at any other, then `u == v`. With storage on, for every slot above the prune threshold of every acceptor at both moments. An acceptor that may restart is given new slots in order and restarts when its disk gives everything back. |
| Safety.HeldForever | paxos-wasm/core/acceptor/src/acceptor.rs:145-175 | A value an acceptor holds for a slot is still held at every later moment of the run, across recoverable restarts, until that acceptor prunes the slot: accepts never replace a stored value, whatever the ballot. |
| Safety.HeldIsAcknowledged | paxos-wasm/core/acceptor/src/acceptor.rs:145-175 | Once an acceptor holds `v` for a slot it has not pruned, every later accept of `v` there under any ballot not below its last promise is answered with its vote and an acknowledgement under that ballot. |
| Safety.LastPromiseIsLargest | paxos-wasm/core/acceptor/src/acceptor.rs:89-131 | In every run, restarts included, the promised ballot an acceptor goes by is the largest ballot of all promises it ever sent, or 0. |
| Safety.TablesAreFiled | paxos-wasm/agents/proposer-agent/src/proposer-agent.rs:104-137 | In every run the promise table of a proposer is that of a sequence of promises that were sent to it, so what is said of such sequences holds in runs. |
| Safety.RunJournaled | paxos-wasm/core/acceptor/src/acceptor.rs:423-554 | In every run, memory and disk of every acceptor that may restart stay in step, whatever the other nodes do. |
| Safety.RestartKeepsState | paxos-wasm/core/acceptor/src/acceptor.rs:506-554 | A recoverable restart changes neither the promises nor the accepted entries. |
| Safety.StateMachineReplication | paxos-wasm/agents/learner-agent/src/learner-agent.rs:188-259 | Any two learners, each looked at at any moment of any run, with acceptor storage and recoverable restarts (and retries answered for accepted slots), as long as at no moment up to the later one an acceptor had pruned a slot that one of the two had yet to execute (nothing is asked without storage): one executed log is a prefix of the other, and equal cursors give equal stores and equal result lists, sent and buffered together. |
| Replication.ReplicatesIffSteady | paxos-wasm/agents/learner-agent/src/learner-agent.rs:188-259 | The exact condition, with nothing asked of the run: a system replicates in every run (any two learners at any two moments, executed logs prefixes of one another, and equal stores and results at equal cursors) if and only if it has at most one learner or is steady, that is, any two majorities share an acceptor that cannot prune or is given new slots in order. Restarts are included. |
| OneVote.SteadyReplicates | paxos-wasm/agents/learner-agent/src/learner-agent.rs:188-259 | The first half for one run: in a steady system any two learners at any two moments are replicas, whatever was pruned. |
| Replication.UnsteadyParts | paxos-wasm/core/acceptor/src/acceptor.rs:478-496 | The second half: in every system that is not steady, for any two learners and any two values, there is a run in which acceptors prune slot 1 and are given it anew, and the learners execute the two values for slot 1. |
| Safety.ExecutedSlotsAgree | paxos-wasm/agents/learner-agent/src/learner-agent.rs:215-259 | In every run, with storage and restarts, and whatever was pruned below: two learners, at any two moments, executed the same value for every slot that no acceptor has pruned by the later one. |
| Safety.OneValueIsChosen | paxos-wasm/core/learner/src/learner.rs:61-78 | In any run, with storage and restarts: if `u` has learn votes from a majority for a slot at one moment and `v` at a later one, then `u == v`, for every slot no acceptor has pruned by then. |
| OneVote.OneValueEver | paxos-wasm/core/acceptor/src/acceptor.rs:145-175 | In a steady system the same holds of every slot from 1 on, pruned or not. |
| OneVote.RunVotesOnce | paxos-wasm/agents/acceptor-agent/src/acceptor-agent.rs:159-264 | The invariant behind it, over all runs of any system: an acceptor that cannot prune or is given new slots in order never casts different votes for one slot, and every vote of its is for the value it holds or for a slot behind its next one. |
| Safety.RunSafe | paxos-wasm/agents/acceptor-agent/src/acceptor-agent.rs:159-264 | The inductive invariant over all runs, with storage and restarts: the network only grows, every vote and acknowledgement is backed by what its sender stores, every promise report is exact below its ballot and misses nothing acknowledged under a smaller one (each for the slots the sender has not pruned), every learned and every executed value has a quorum of votes, and what a proposer filed was sent. |
| Safety.PromiseReportsAreFinal | paxos-wasm/core/acceptor/src/acceptor.rs:89-131 | Once a promise for `(slot, ballot)` is on the network, then at every later moment of any run, with storage and restarts, the entries its sender stores from `slot` on with a smaller ballot were reported, and those reported are stored unless the sender has pruned their slot. |
| Safety.PromiseQuorumsDiscoverChosen | paxos-wasm/agents/proposer-agent/src/proposer-agent.rs:104-137 | If a majority acknowledged `v` for a slot under ballot `b`, then every promise list a proposer obtains for a larger ballot, over slots that include it, reports `v` for that slot, however the two rounds and any restarts interleaved, for every slot no acceptor has pruned by then. |
| Safety.NoopFallbackBreaksAgreement | paxos-wasm/agents/acceptor-agent/src/acceptor-agent.rs:133-144 | Why the step relation guards retries: with the no-op fallback for slots an acceptor has not accepted, four message handlings of three acceptors give both a no-op and `v` a quorum of votes for one slot. |
| Quorum.MajoritiesIntersect | paxos-wasm/agents/proposer-agent/src/proposer-agent.rs:68-70 | Two sets of at least n/2+1 of the n acceptors have a member in common. |
| Quorum.QuorumIsLeast | paxos-wasm/core/learner/src/learner.rs:61-64 | The quorum size is the least at which any two sets of acceptors must meet. |
| AcceptorCore.MyAcceptor.HandlePrepare | paxos-wasm/core/acceptor/src/acceptor.rs:89-131 | The object's whole new state and its answer are those of the transition function: refuse below the promised ballot, push and persist a larger one, answer an equal one again, always with the entries from the slot on. |
| AcceptorCore.MyAcceptor.HandleAccept | paxos-wasm/core/acceptor/src/acceptor.rs:134-205 | The object's whole new state and its answer are those of the transition function: refuse below the promised ballot, refuse a conflicting value whatever its ballot, acknowledge a repeat without change, otherwise insert, journal and perhaps snapshot and prune. |
| AcceptorCore.AcceptFacts | paxos-wasm/core/acceptor/src/acceptor.rs:134-205 | One accept never changes an existing entry or the promises, adds at most its own entry and only at or above the promised ballot, and acknowledges only a value that is then stored; pruning is the one exception and reaches no slot above the threshold. |
| AcceptorCore.AcceptIsExact | paxos-wasm/core/acceptor/src/acceptor.rs:134-205 | An accept is acknowledged if and only if its ballot is not below the last promise and the slot holds no other value, whatever ballot stored it; a refusal names the promised ballot if that is larger than the request's, else the ballot of the stored entry; only a first accept of a slot changes anything. |
| AcceptorCore.FirstAcceptIsJournaled | paxos-wasm/core/acceptor/src/acceptor.rs:184-198 | With storage, a first accept is journaled in whatever order slots come, before a snapshot may be taken of memory with it. |
| AcceptorCore.PrepareIsExact | paxos-wasm/core/acceptor/src/acceptor.rs:89-131 | A prepare is granted if and only if its ballot is not below the last promise, which then is its ballot, in memory and with storage on disk; the report has an entry exactly if it is stored from the slot on; a repeat or a refusal changes nothing. |
| Safety.PrepareReports | paxos-wasm/core/acceptor/src/acceptor.rs:89-131 | A granted prepare changes no entry, never lowers the promised ballot, keeps the promise list increasing, and its report has every entry from the slot on. |
| AcceptorCore.CollectFromReports | paxos-wasm/core/acceptor/src/acceptor.rs:57-63 | A promise report contains an entry if and only if it is stored for a slot at or after the requested one. |
| AcceptorCore.CollectFromOrdered | paxos-wasm/core/acceptor/src/acceptor.rs:57-63 | Reports come in increasing slot order, one entry a slot. |
| AcceptorCore.MyAcceptor.LoadState | paxos-wasm/core/acceptor/src/acceptor.rs:506-554 | Startup restores promises and journal, or nothing at all when the promise file is missing. |
| AcceptorCore.LoadIsExact | paxos-wasm/core/acceptor/src/acceptor.rs:506-554 | Startup restores both parts exactly when there is a promise file, fails exactly when storage is on without one, and otherwise changes nothing. |
| AcceptorAgents.AcceptorAgent.HandleMessage | paxos-wasm/agents/acceptor-agent/src/acceptor-agent.rs:159-264 | The acceptor's new state and the messages added to the outbox are those of the handler function: a promise for a promise, a vote and an acknowledgement for an accept, nothing for a refusal, one vote a slot for a retry. |
| AcceptorAgents.AnswersAreExact | paxos-wasm/agents/acceptor-agent/src/acceptor-agent.rs:126-264 | What every request is answered with, said without the handlers: one promise with its full report exactly for a granted prepare, a vote and an acknowledgement exactly for an accept that must be acknowledged, and one vote per slot of a retry, in order, for the stored value or else the no-op. |
| AcceptorAgents.AcceptorAgent.RetryLearns | paxos-wasm/agents/acceptor-agent/src/acceptor-agent.rs:126-157 | One vote per requested slot, in order: the accepted value, or a no-op when there is none. |
| PromiseRound.PromiseBox.InsertAndCheckPromises | paxos-wasm/agents/proposer-agent/src/proposer-agent.rs:104-137 | The table is the one of all promises received so far, this one included; the answer is a full listing of the group of the highest ballot exactly when that group has a quorum. |
| PromiseRound.FiledIsLast | paxos-wasm/agents/proposer-agent/src/proposer-agent.rs:104-119 | For any promises received, in any order and with any repetition: a node is filed under a ballot if and only if it sent a promise for it, and what is filed is the last such promise. |
| PromiseRound.RoundIsExact | paxos-wasm/agents/proposer-agent/src/proposer-agent.rs:104-137 | Hence a list is answered if and only if at least n/2+1 distinct senders promised the highest ballot received, and it has the last promise of each of them once. |
| PromiseRound.Check | paxos-wasm/agents/proposer-agent/src/proposer-agent.rs:121-136 | Only the highest ballot's group is judged, and a listing has each sender's promise exactly once, in some order. |
| LearnerCore.LearnedIffQuorum | paxos-wasm/core/learner/src/learner.rs:123-171 | For any delivery order with any repetition and any executions in between (storage off, votes from the N acceptors, each constant per slot): a value is learned for a slot if and only if at least N/2+1 distinct acceptors delivered it. |
| LearnerCore.VotesAreLast | paxos-wasm/core/learner/src/learner.rs:151-163 | In every run, whatever was learned, executed or pruned in between, the vote on file for a sender and a slot is the last one that sender cast, and there is none if it cast none. |
| LearnerCore.LearnedStep | paxos-wasm/core/learner/src/learner.rs:123-171 | A slot takes the first value a quorum count finds for it or that is learned directly, keeps it, and no vote or learn touches another slot. |
| LearnerCore.LearnIsJournaled | paxos-wasm/core/learner/src/learner.rs:123-149 | With storage, a value learned for the first time is journaled, and nothing else is. |
| LearnerCore.WinnerUnique | paxos-wasm/core/learner/src/learner.rs:61-78 | With votes from the N acceptors the quorum count has one outcome, so the iteration order of the hash map never matters. |
| LearnerCore.ExecutesEachSlotOnceInOrder | paxos-wasm/core/learner/src/learner.rs:174-212 | Over all runs of votes, direct learns and executions, with pruning and re-learning: the Execute batches concatenated are slots 1, 2, ..., adu, once each, and after an execution slot adu+1 is not learned. |
| LearnerCore.ToBeExecutedFacts | paxos-wasm/core/learner/src/learner.rs:174-212 | A batch continues right after the cursor, takes its values from the learned map, and moves the cursor by its own length to just before a gap. |
| LearnerCore.ScanAdu | paxos-wasm/core/learner/src/learner.rs:444-453 | The startup scan over the sorted keys ends at the same cursor as the point-lookup walk used for execution, for every learned map and every cursor. |
| LearnerCore.WalkIsFirstGap | paxos-wasm/core/learner/src/learner.rs:175-186 | The walk stops at the first slot that is not learned, and only there. |
| LearnerCore.CountVotes | paxos-wasm/core/learner/src/learner.rs:68-72 | The counting loop gives every value the number of its distinct voters and no value without one a count. |
| LearnerCore.MyLearner.CheckQuorum | paxos-wasm/core/learner/src/learner.rs:61-78 | Returns a value with at least n/2+1 voters if there is one, and nothing only if there is none. |
| LearnerCore.MyLearner.HandleVote | paxos-wasm/core/learner/src/learner.rs:151-171 | Records the sender's vote over his earlier one and learns the value the quorum count finds, if any; the whole new state is given by the transition function. |
| LearnerCore.MyLearner.Executable | paxos-wasm/core/learner/src/learner.rs:174-212 | The loop's batch, new cursor, snapshot and pruning are those of the transition function. |
| LearnerCore.MyLearner.LoadState | paxos-wasm/core/learner/src/learner.rs:401-461 | Startup restores the learned map and puts the cursor at the first gap after the last snapshot's. |
| LearnerCore.LoadIsExact | paxos-wasm/core/learner/src/learner.rs:401-461 | Startup without storage does nothing; with it the map is the restored one and the cursor stands before its first gap at or after the last loaded snapshot's. |
| KvMachine.BatchExtendsRun | paxos-wasm/core/kv-store/src/kv-store.rs:66-93 | The store and the results depend only on the log: applying a batch to the state after a log equals running the longer log, wherever the batches are cut. |
| KvMachine.ResultsAt | paxos-wasm/core/kv-store/src/kv-store.rs:86-93 | Each result is that of its own command on the state all earlier slots left. |
| KvMachine.StoreHoldsLastWrites | paxos-wasm/core/kv-store/src/kv-store.rs:38-69 | After any log the store holds, for every key, the value of the latest Set of it with no later Remove of it and no later Clear, and nothing for a key without one. |
| KvMachine.LastWrittenIs | paxos-wasm/core/kv-store/src/kv-store.rs:38-69 | The value so found by walking the log back is that of a Set after which no command touches the key. |
| KvMachine.ResultsAnswerTheLog | paxos-wasm/core/kv-store/src/kv-store.rs:38-93 | Result `i` of any log is, told from the earlier entries alone: the last value written for Get and Remove, no value for Set and Clear, "Demo" for Demo, NoOp and no success exactly for a missing command; slot and value are those of the entry. |
| KvMachine.KvStore.ApplyCommand | paxos-wasm/core/kv-store/src/kv-store.rs:38-93 | The object's store, history and answer for each command kind, including a missing command. |
| LearnerAgents.ExecutedResultsConserved | paxos-wasm/agents/learner-agent/src/learner-agent.rs:215-298 | In every run the batches sent, in order, followed by the buffer are exactly the results of slots 1 to adu, each computed on the state the earlier slots left, and no batch is empty or larger than the batch size. |
| Delivery.DeliveriesAreExact | paxos-wasm/agents/learner-agent/src/learner-agent.rs:262-298 | After any run, what the next event executes and sends, told from the log and what was sent before: a due tick or a new learn executes the learned slots up to the first gap; the tick sends the oldest unsent results as one batch, up to the batch size, if there are any; the new learn sends one full batch if that many are unsent, else none; every other event executes and sends nothing. The rest stays in the buffer. |
| Delivery.TickDelivers | paxos-wasm/agents/learner-agent/src/learner-agent.rs:350-382 | The same of one tick, from any state that conserves results. |
| Delivery.LearnDelivers | paxos-wasm/agents/learner-agent/src/learner-agent.rs:384-411 | The same of one learn message, from any such state, for whichever value the quorum count finds. |
| Delivery.EverythingIsSent | paxos-wasm/agents/learner-agent/src/learner-agent.rs:350-382 | Everything is sent in the end: after `k` due ticks while nothing more is executed, and at most `k` batches of results in the buffer before, the buffer is empty and the batches sent are the results of slots 1 to adu. |
| LearnerAgents.CollectTakes | paxos-wasm/agents/learner-agent/src/learner-agent.rs:262-298 | Collecting takes the oldest results: all of them without a batch size, up to the size otherwise, and none when a full batch is required and not there. |
| LearnerAgents.CollectAndDispatchConserves | paxos-wasm/agents/learner-agent/src/learner-agent.rs:262-298 | Draining a batch and dispatching it loses, repeats and reorders nothing. |
| LearnerAgents.RetriesAreRateLimited | paxos-wasm/agents/learner-agent/src/learner-agent.rs:300-348 | On a clock that does not go back, every retry list is non-empty, strictly increasing, inside (adu, highest] and at most a batch long, and two requests for one slot are at least the retry interval apart. |
| Retries.AsksExactly | paxos-wasm/agents/learner-agent/src/learner-agent.rs:300-348 | When the learner asks again, told from the history of new learns and requests: an evaluation asks if and only if the gap has reached its limit or the retry interval has passed since the last new learn or request, and some slot in (adu, highest] was never asked for or not within the interval (and the batch size is positive); it then asks for the first such slots, as many as fit a batch. Otherwise it says which of the two was missing. |
| Retries.LearnsAskNothing | paxos-wasm/agents/learner-agent/src/learner-agent.rs:206-209 | A new learn asks for nothing and restarts the idle time. |
| LearnerAgents.HighestLearned | paxos-wasm/core/learner/src/learner.rs:112-119 | The highest learned slot, or 0 for none. |
| LearnerAgents.ScanFacts | paxos-wasm/agents/learner-agent/src/learner-agent.rs:319-333 | The scan picks cooled-down slots in order, and leaves one out only when the batch is full. |
| LearnerAgents.LearnerAgent.HandleLearnMessage | paxos-wasm/agents/learner-agent/src/learner-agent.rs:384-411 | One learn message: vote, and if it was new, execution and a full batch only; the new agent state and learn timer for whichever value the quorum count finds. |
| LearnerAgents.LearnerAgent.HandleTick | paxos-wasm/agents/learner-agent/src/learner-agent.rs:350-382 | One tick: the retry decision with its request and timers, then execution and a partial batch if the interval has passed, and nothing more otherwise. |
| LearnerAgents.LearnerAgent.ExecuteChosenLearns | paxos-wasm/agents/learner-agent/src/learner-agent.rs:215-259 | The apply loop's store, history, log and buffer are those of the whole batch. |
| LearnerAgents.LearnerAgent.CollectExecuted | paxos-wasm/agents/learner-agent/src/learner-agent.rs:262-298 | Takes the oldest results up to the batch size, or none when a full batch is required and not there. |
| LearnerAgents.LearnerAgent.PickSlots | paxos-wasm/agents/learner-agent/src/learner-agent.rs:319-333 | The retry loop picks the scan's slots and stamps exactly those with the current time. |
| Journal.StorageHelper.Trim | paxos-wasm/core/acceptor/src/acceptor.rs:456-463 | The reverse walk takes the entries with the largest slots, as many as one snapshot interval. |
| Journal.TopIsSuffix | paxos-wasm/core/acceptor/src/acceptor.rs:457-463 | An entry is among the `k` largest exactly if it stands among the last `k` keys in order. |
| Journal.StorageHelper.Maybe | paxos-wasm/core/acceptor/src/acceptor.rs:423-444 | A snapshot is taken exactly on grid slots past the last one; the new journal and the pruned map are those of the transition function. |
| Journal.MaybeSnapshotIsExact | paxos-wasm/core/acceptor/src/acceptor.rs:423-496 | For every journal and every map: a snapshot is taken if and only if the slot is on the grid and past the last one; it holds the slots with fewer than one interval of slots above them, the older snapshots rotate, the changelog is emptied, and memory keeps the slots less than all kept intervals below the newest one. |
| Journal.MaybeSnapshotKeeps | paxos-wasm/core/acceptor/src/acceptor.rs:478-496 | A snapshot changes no surviving entry, and removes none above the prune threshold. |
| Journal.StorageHelper.LoadEntries | paxos-wasm/core/acceptor/src/acceptor.rs:522-545 | The two replay loops give the loaded snapshots combined oldest first, then every change. |
| AcceptorRecovery.RecoveryIsExact | paxos-wasm/core/acceptor/src/acceptor.rs:423-554 | Take any run whose new accepts take consecutive slots, with any number of restarts in it, whatever they lost, as long as none brought forgotten slots back. The next restart gives back the promises and the pruned accepted map in memory if and only if the state is recoverable: without a promise file nothing is in memory, with one nothing readable lies above the newest slot in memory and the oldest slot in memory is readable. |
| AcceptorRecovery.OnlyRecoverableIsRestored | paxos-wasm/core/acceptor/src/acceptor.rs:506-554 | One half needs no run: with storage on, in any state whatever, a restart that gives back the accepted map found the state recoverable. |
| AcceptorRecovery.RecoveryIsExactBySlots | paxos-wasm/core/acceptor/src/acceptor.rs:423-554 | The same for runs in which restarts also bring forgotten slots back, provided that no two readable records of a slot differ at such a restart: the next restart gives back promises and values as in memory if and only if the slots that can be read are exactly those in memory (without a promise file: if and only if memory is empty). |
| AcceptorRecovery.RecoveryIsANoOp | paxos-wasm/core/acceptor/src/acceptor.rs:506-554 | With load count at least the snapshot count, in-order accepts, and a promise file at every restart that had accepted entries to lose, the last one included, a restart at any point changes neither promises nor accepted entries. |
| AcceptorRecovery.PromisedForgetsNothing | paxos-wasm/core/acceptor/src/acceptor.rs:361-378 | If every restart that had accepted entries to lose found a promise file, nothing readable ever lies above the newest slot in memory, for every load count. |
| AcceptorRecovery.MissingPromiseFileForgets | paxos-wasm/core/acceptor/src/acceptor.rs:361-378 | A concrete acceptor without a promise file forgets its accepted value in a restart, though the value is readable on disk. |
| AcceptorRecovery.ForgottenSlotsReturn | paxos-wasm/core/acceptor/src/acceptor.rs:505-554 | A concrete in-order run: restarting before the first promise, an acceptor acknowledges two values for slot 1, and after a promise the next restart brings the forgotten slot 2 back. |
| AcceptorRecovery.ReturnedSlotsHideAStaleValue | paxos-wasm/core/acceptor/src/acceptor.rs:456-475 | Why records must not differ when forgotten slots come back: a concrete run after it is recoverable by the two ends, yet a restart reads an older value for slot 1. |
| AcceptorRecovery.OutOfOrderAcceptIsForgotten | paxos-wasm/core/acceptor/src/acceptor.rs:456-463 | The order matters: a concrete run with a late accept for a low slot, whose acknowledged value a restart forgets. |
| AcceptorRecovery.PrunedSlotTakesAnotherValue | paxos-wasm/core/acceptor/src/acceptor.rs:478-496 | Agreement is claimed above the prune threshold for a reason: a concrete acceptor that acknowledges two values for a slot it has pruned in between. |
| LearnerRecovery.RecoveryIsExact | paxos-wasm/core/learner/src/learner.rs:321-461 | After any run of in-order learns, each followed by execution, with any restarts in it that kept the cursor though they may have lost low slots: a restart reproduces the learned map and the cursor if and only if the cursor can be read (some snapshot is loaded, or none exists) and so can the oldest slot in memory. |
| LearnerRecovery.RecoveryIsANoOp | paxos-wasm/core/learner/src/learner.rs:400-461 | With load count at least the snapshot count, a restart at any point of such a run changes neither the learned map nor the cursor. |
| Windows.RestoresExactly | paxos-wasm/core/acceptor/src/acceptor.rs:423-554 | Snapshots tile the newest slots in windows of one interval, the changelog holds the rest, and leftovers of forgotten slots may lie beneath. Reading it all back gives the live map exactly when nothing readable lies above the newest live slot and the oldest live slot is readable. |
| Windows.OldestIsReadable | paxos-wasm/core/acceptor/src/acceptor.rs:456-496 | The oldest slot in memory is readable whenever as many snapshots are loaded as kept. |
| Windows.CheckpointKeepsStep | paxos-wasm/core/acceptor/src/acceptor.rs:436-496 | A checkpoint, with its trimming, rotation and pruning, keeps memory and disk in step. |
| Windows.CheckpointIsNext | paxos-wasm/core/acceptor/src/acceptor.rs:432-437 | Counting in slots one by one, the next checkpoint is one interval after the last, and the first one at the offset (or at the interval, for offset 0). |
| HostStorage.DiskLogRoundTrip | paxos-wasm/runner-ws/src/host_storage.rs:58-190 | For any sequence of requests with rising timestamps and blobs under 2^32 bytes, loading returns exactly the changes appended since the last checkpoint and the newest min(load, max, taken) snapshots, in order. |
| HostStorage.NewestIsExact | paxos-wasm/runner-ws/src/host_storage.rs:118-148 | For any files and any number: the files loaded, and those kept by pruning, are those with fewer than that many above them, in order of their names. |
| HostStorage.FramesReadBack | paxos-wasm/runner-ws/src/host_storage.rs:171-186 | Reading length-prefixed records is exact whatever bytes follow them. |
| HostStorage.OnlyRecordsAreRead | paxos-wasm/runner-ws/src/host_storage.rs:171-186 | For any bytes whatever: if reading succeeds they are the records read, framed, followed by less than a length; if it fails the error is that of a cut-off read. |
| HostStorage.CutOffRecord | paxos-wasm/runner-ws/src/host_storage.rs:171-186 | A changelog cut off anywhere inside a record: in its length, all records before it are read; in its body, the whole load fails. |
| HostStorage.ReadChangelog | paxos-wasm/runner-ws/src/host_storage.rs:174-186 | The reading loop returns all whole records, ends quietly at a cut-off length and fails at a cut-off body. |
| HostStorage.Host.HandleRequest | paxos-wasm/runner-ws/src/host_storage.rs:58-110 | The three requests' effects on the promise file, the changelog and the snapshot files. |
| HostStorage.Host.PruneSnapshots | paxos-wasm/runner-ws/src/host_storage.rs:135-148 | The loop terminates and leaves exactly the newest files. |
| HostStorage.Host.LoadStateAndChanges | paxos-wasm/runner-ws/src/host_storage.rs:150-190 | The load loop returns the newest snapshots and the records of the changelog, or its error. |
| DiskRecovery.AcceptorRecoversFromDisk | paxos-wasm/core/acceptor/src/acceptor.rs:361-554 | Recovery from bytes: after any in-order run, with any restarts in it that brought no forgotten slots back, loading, decoding and replaying the files its requests left gives the promises and the accepted map in memory if and only if a promise was saved, nothing readable lies above the newest slot in memory, and the oldest slot in memory is readable. |
| DiskRecovery.AcceptorRunOnDisk | paxos-wasm/core/acceptor/src/acceptor.rs:307-503 | After any run at all, in order or not, the files hold the last saved promises and the encoded journal of the model. |
| DiskRecovery.JournalReadsBack | paxos-wasm/runner-ws/src/host_storage.rs:150-190 | Decoding what a load returns gives the newest snapshots and all changes of that journal. |
| DiskRecovery.LearnerRecoversFromDisk | paxos-wasm/core/learner/src/learner.rs:278-461 | The same for the learner: after any in-order run with restarts that kept the cursor, the files give its map and cursor if and only if the cursor and the oldest slot in memory are readable. |
| Framing.ChunkInvariance | paxos-wasm/runner-ws/src/host_network_server.rs:63-91 | However the byte stream is cut into reads, the frames extracted so far and the remaining buffer are those of parsing everything received at once, and together they are every byte received. |
| Framing.ExtractSplit | paxos-wasm/runner-ws/src/host_network_server.rs:67-85 | Bytes that arrive later never change the frames already extracted. |
| Framing.FramesArrive | paxos-wasm/runner-ws/src/host_network_server.rs:63-91 | Whole frames sent come out whole, in order and with nothing left over, for every way of cutting them. |
| Framing.Connection.OnRead | paxos-wasm/runner-ws/src/host_network_server.rs:63-91 | One read: the offset loop queues the messages of exactly the new whole frames that decode, in order, and keeps the rest. |
| Bytes.BigEndianRoundTrip | paxos-wasm/runner-ws/src/host_serializer.rs:24-26 | A length below 2^32 survives its four big-endian bytes. |
| Bytes.BigEndianOrders | paxos-wasm/runner-ws/src/host_serializer.rs:24-26 | The most significant byte comes first: numbers are ordered as their four bytes are. |
| Bytes.BigEndianIsOnto | paxos-wasm/runner-ws/src/host_network_server.rs:69-79 | Re-encoding a decoded length gives the four bytes back, so the rebuilt frame is the received one. |
| WireExact.TextRoundTrip | paxos-wasm/runner-ws/src/host_serializer.rs:36-696 | A message comes back from its text if and only if it is safe, and the safe messages are exactly those any text can parse to. Safe: no comma and no double pipe in any text, inside lists no pipe or closing bracket either, no Set, no empty retry list, no result spelled "none", no promise entry with a value but no command. |
| WireRoundTrip.SafeMessageReadsBack | paxos-wasm/runner-ws/src/host_serializer.rs:154-696 | Every safe message is parsed back from its text unchanged. |
| WireExact.OnlySafeMessagesParse | paxos-wasm/runner-ws/src/host_serializer.rs:36-80 | Whatever text arrives, a message that parses from it is safe. |
| WireGrammar.ReadingIsExact | paxos-wasm/runner-ws/src/host_serializer.rs:36-128 | For every text whatever: a message is read from it if and only if the text says so, in terms of what stands in it: two halves with their prefixes, a tag, for each field the last part that names its key, numbers as digits after an optional plus sign, and lists cut at the first marker and the next closing bracket. So the order of fields, repeated and unknown fields and what follows a list make no difference, and a missing or unreadable field is an error. |
| WireGrammar.PayloadIsRead | paxos-wasm/runner-ws/src/host_serializer.rs:288-697 | The same for payloads of every kind, in texts without a double pipe. |
| WireGrammar.NodeIsRead | paxos-wasm/runner-ws/src/host_serializer.rs:96-128 | The same for nodes: every role field must name a role, even one that a later field overwrites. |
| WireGrammar.ListIsRead | paxos-wasm/runner-ws/src/host_serializer.rs:410-449 | A list is read as the items of its entries in order, without those skipped, and not at all if an entry is neither skipped nor readable. |
| WireGrammar.EntryIsRead | paxos-wasm/runner-ws/src/host_serializer.rs:410-449 | A promise entry is skipped exactly if one of its five fields is missing or its number is none, and otherwise read exactly as its fields say. |
| WireGrammar.CutIsRead | paxos-wasm/runner-ws/src/host_serializer.rs:381-396 | Where a list begins and ends: at the first marker and the next closing bracket, whatever follows. |
| WireGrammar.LastFieldIs | paxos-wasm/runner-ws/src/host_serializer.rs:300-308 | The value of a key is the one no later part overwrites. |
| WireGrammar.ParsesWhatItDenotes | paxos-wasm/runner-ws/src/host_serializer.rs:107-107 | A text is read as a 64-bit number exactly if it is digits of that value after an optional plus sign. |
| WireGrammar.PrintingIsExact | paxos-wasm/runner-ws/src/host_serializer.rs:18-24 | What goes out for every node and payload, part by part, with the lists after the header. |
| WireGrammar.EntriesPrinted | paxos-wasm/runner-ws/src/host_serializer.rs:171-187 | What goes out for a promise entry, with its stand-ins when it has no value, and for an executed result. |
| WireFormat.OperationRoundTrip | paxos-wasm/runner-ws/src/host_serializer.rs:699-760 | Every operation other than Set reads back; a Set does if and only if the three-character separator neither shows up in the key or across its end nor in the value. |
| WireExact.NoSet | paxos-wasm/runner-ws/src/host_serializer.rs:735-750 | Text without a comma never parses as a Set, so a Set cannot pass through the comma-separated payloads. |
| WireExact.SetsAreLost | paxos-wasm/runner-ws/src/host_serializer.rs:303-320 | No text at all parses to a client request that sets a key. |
| WireRoundTrip.EntryReadsBack | paxos-wasm/runner-ws/src/host_serializer.rs:171-187 | A printed promise entry parses back, including one without a value. |
| WireRoundTrip.NodeReadsBack | paxos-wasm/runner-ws/src/host_serializer.rs:82-127 | A node whose address has no comma and no double pipe is parsed back. |
| WireRoundTrip.BodyParses | paxos-wasm/runner-ws/src/host_serializer.rs:412-448 | A list printed with pipes comes apart into the same entries, and an empty list into none. |
| Text.SplitJoin | paxos-wasm/runner-ws/src/host_serializer.rs:289-289 | Splitting at a delimiter undoes joining when no part contains it. |
| Text.SplitOnPipes | paxos-wasm/runner-ws/src/host_serializer.rs:61-65 | Two texts without a double pipe come apart at the one between them, when the first does not end in a pipe. |
| Text.SplitClean | paxos-wasm/runner-ws/src/host_serializer.rs:104-104 | Pieces of a clean text are clean and free of the delimiter. |
| Text.DecParses | paxos-wasm/runner-ws/src/host_serializer.rs:107-107 | Every 64-bit number is parsed back from its decimal text. |
| Text.DigitsArePositional | paxos-wasm/runner-ws/src/host_serializer.rs:107-107 | Digits count by their place, so leading zeros change nothing. |
| Transport.MessageRoundTrip | paxos-wasm/runner-ws/src/host_serializer.rs:18-80 | For a lossless text encoding, a serialized message deserializes to itself if and only if it is safe, and no bytes at all deserialize to an unsafe message. |
| Transport.FramesAreRead | paxos-wasm/runner-ws/src/host_serializer.rs:18-80 | Which bytes are read as which message: exactly one frame whose body decodes to a text that says so. A message whose text fits is sent as the frame of its text, and no other is sent. |
| Transport.StreamArrives | paxos-wasm/runner-ws/src/host_network_server.rs:63-91 | End to end: once the whole stream of any list of messages is in, however it was cut, the receiver's queue equals the messages sent if and only if every one of them is safe, and the buffer is empty. |
| Transport.StreamArrivesInOrder | paxos-wasm/runner-ws/src/host_network_server.rs:63-91 | At every earlier moment the queue is a prefix of the (safe) messages sent. |
| Deserializer.ScanFields | paxos-wasm/runner-ws/src/host_serializer.rs:300-308 | The field loop: a later field overwrites an earlier one, an unparsable one erases it, a part without a colon is skipped. |
| Deserializer.DeserializeNode | paxos-wasm/runner-ws/src/host_serializer.rs:99-127 | The node loop, with its early exit on an unknown role, computes the node parser. |
| Deserializer.DeserializeEntries | paxos-wasm/runner-ws/src/host_serializer.rs:410-449 | The entry loop keeps complete entries in order, skips incomplete ones and stops at the first bad operation. |
| Deserializer.DeserializeResults | paxos-wasm/runner-ws/src/host_serializer.rs:601-652 | The result loop does the same, and also stops at the first bad result. |
| Deserializer.DeserializeSlots | paxos-wasm/runner-ws/src/host_serializer.rs:562-567 | The slot loop parses every token, or stops at the first that is no number. |
| DetectorRuns.DetectorRefinesHistory | paxos-wasm/core/failure-detector/src/failure-detector.rs:42-134 | After any run of heartbeats and checks over distinct ids: each node is Alive, Suspected or Dead according to 0, 1 or at least 2 missed rounds in a row, a proposer is suspected by the leader detector exactly if Dead, the leader is the largest proposer not Dead, and the alive list has exactly the nodes not Dead. |
| DetectorRuns.CheckerReportsLeaderChanges | paxos-wasm/core/failure-detector/src/failure-detector.rs:64-109 | After any run over distinct ids, the next check reports leader changes exactly (something if and only if the leader changed, and then the new leader) if and only if nobody leads yet or some proposer was heard or had not missed a round. |
| DetectorRuns.CheckReports | paxos-wasm/core/failure-detector/src/failure-detector.rs:64-109 | The same for any consistent state, told by the outcome: exact unless the check leaves nobody leading where somebody led. A change and change back inside one loop cannot happen. |
| DetectorRuns.LastCandidateDies | paxos-wasm/core/failure-detector/src/failure-detector.rs:92-98 | A concrete check in which both proposers die reports the smaller one as the new leader, though it is dead too and nobody leads. |
| DetectorRuns.RefinesIffDistinct | paxos-wasm/core/failure-detector/src/failure-detector.rs:42-134 | For every list of nodes: all of that holds after every run if and only if the ids are distinct. |
| DetectorRuns.RepeatedIdBreaks | paxos-wasm/core/failure-detector/src/failure-detector.rs:70-105 | For every list in which an id is repeated: heard once and then checked, that node is not Alive, though no round missed it. |
| LeaderDetection.Recompute | paxos-wasm/core/leader-detector/src/leader-detector.rs:32-39 | The elected leader is the largest proposer not suspected, and there is none only if all are suspected. |
| LeaderDetection.ElectsOne | paxos-wasm/core/leader-detector/src/leader-detector.rs:32-39 | There is never more than one such leader. |
| LeaderDetection.InitialLeader | paxos-wasm/core/leader-detector/src/leader-detector.rs:55-64 | The initial loop finds the largest proposer id. |
| LeaderDetection.LeaderDetector.constructor | paxos-wasm/core/leader-detector/src/leader-detector.rs:43-74 | Proposers and coordinators only, none suspected, the largest leading. |
| LeaderDetection.LeaderDetector.Suspect | paxos-wasm/core/leader-detector/src/leader-detector.rs:76-98 | The object's new state and answer: ids that are no proposer change nothing, and the answer is the new leader exactly when that changed. |
| LeaderDetection.LeaderDetector.Restore | paxos-wasm/core/leader-detector/src/leader-detector.rs:100-122 | The same for a node that is back. |
| FailureDetection.FailureDetector.Checker | paxos-wasm/core/failure-detector/src/failure-detector.rs:64-109 | The loop over the nodes, driving the leader detector, leaves the state and gives the answer of one full check. |
| FailureDetection.FailureDetector.OnHeartbeat | paxos-wasm/core/failure-detector/src/failure-detector.rs:111-115 | A heartbeat counts for its sender and for the local node. |
| FailureDetection.FailureDetector.AliveNodes | paxos-wasm/core/failure-detector/src/failure-detector.rs:117-134 | The nodes not Dead, in order. |
| FailureDetection.NotDeadInOrder | paxos-wasm/core/failure-detector/src/failure-detector.rs:117-134 | The list of alive nodes goes node by node in the order given, each as often as it is listed. |

## Left out

- The no-op fallback for retried slots without an accepted value, in the step relation of `Protocol.dfy` only: it votes for a value the acceptor does not hold, and `Safety.NoopFallbackBreaksAgreement` shows that agreement fails with it. The agent's method has it.
- Safety.StateMachineReplication: covers one lifetime of each learner, because the store starts empty after a restart while the cursor is restored. It asks that acceptors prune behind the two learners; what holds without that is `Replication.ReplicatesIffSteady`, which shares the first limit.
- Safety.OneValueIsChosen: leaves out slots that an acceptor has pruned, where it needs a steady system (`OneVote.OneValueEver`, and `PrunedSlotTakesAnotherValue` for the reason). `Agreement`, `ExecutedSlotsAgree` and `PromiseQuorumsDiscoverChosen` leave the same slots out, and `PromiseReportsAreFinal` those its own acceptor has pruned, whose entries are gone from memory.
- Safety.Agreement: an acceptor that may restart is given new slots in order and restarts only when its state is recoverable; without that it is false (`AcceptorRecovery.ForgottenSlotsReturn` acknowledges two values for one slot). An acceptor that never restarts may be given slots in any order.
- AcceptorRecovery.RecoveryIsExact: does not cover runs in which an earlier restart brought forgotten slots back, after which the two ends no longer decide. `RecoveryIsExactBySlots` covers those in which no two readable records of a slot differed then; where they differ the slots do not decide either (`ReturnedSlotsHideAStaleValue`). Neither covers new accepts out of slot order (`OutOfOrderAcceptIsForgotten`), nor a snapshot limit of 0, for which the disk keeps no snapshot while memory keeps everything. `RecoveryIsANoOp` and `DiskRecovery.AcceptorRecoversFromDisk` share these limits.
- LearnerRecovery.RecoveryIsExact: does not cover runs in which an earlier restart lost the cursor (no snapshot loaded though one exists), because learns after it are no longer in slot order, nor other learns out of slot order, nor a snapshot limit of 0. `DiskRecovery.LearnerRecoversFromDisk` shares these limits.
- DetectorRuns.DetectorRefinesHistory: does not cover repeated node ids, where it is false (`RefinesIffDistinct`).
- Transport.StreamArrives: treats the UTF-8 encoder as any lossless function; reads are of any size, where the server's are at most 4096 bytes; connection ids, closing and read errors are not modelled.
- DiskRecovery.AcceptorRecoversFromDisk: treats the bincode encoders as any lossless functions and the disk as one that does what it is asked; flush timing, file-system errors and a power cut in the middle of a request are not modelled.
- HostStorage.DiskLogRoundTrip: models one storage key, timestamps as increasing numbers whose order is that of the file names, and a missing changelog as an empty one.
- Transport.TryDeserialize: the error texts follow the code (but for the two lengths inside the length error), and that a rejected text is an error is stated, but not which error text it carries. The same holds of failed loads.
- Deserializer.ScanFields: reads all field names in one loop, where each payload kind has a loop of its own over a subset of them; the fields a kind does not use are ignored. What the parsers do around their loops is in the functions of `Serializer.dfy` only.
- The proposer core, the coordinator, the runner and the wasm storage components are not part of this model; proposers are adversaries instead.
- The proposer agent beyond its promise table: phases, accept bookkeeping and client replies.
- Learns broadcast by proposers, and the synchronous paths that answer by return value.
- Arithmetic at the very end of the 64-bit range: the cursor's `adu + 1` is unbounded in the model and would overflow in the code.
- A snapshot interval of zero: the constructor takes a hash modulo the interval and panics, so configurations have a positive one.
- Sockets, threads, tasks, logging, throughput counters, configuration parsing, restart supervision, build scripts and clients.
- The archived prototypes, the early native prototype, the proofs of concept and the WebAssembly examples outside `paxos-wasm/`.
