/** Crash recovery: exactly when what a restarted acceptor or learner reads back is what it
    held. */
module AcceptorRecovery {
  import opened Prelude
  import opened PaxosTypes
  import opened Journal
  import opened AcceptorCore
  import opened Windows

  datatype Op =
    | PrepareOp(slot: Slot, ballot: Ballot)
    | AcceptOp(slot: Slot, ballot: Ballot, value: Value)
    | RestartOp

  /** A new process on the old disk.  The agent only logs a failed load and runs on
      with empty state. */
  function Restart(cfg: StorageConfig, st: AcceptorState): AcceptorState
    requires cfg.Valid()
  {
    Load(cfg, AcceptorState([], map[], st.savedPromises, Reopened(st.store))).0
  }

  function Do(cfg: StorageConfig, st: AcceptorState, op: Op): AcceptorState
    requires cfg.Valid()
  {
    match op
    case PrepareOp(slot, ballot) => Prepare(cfg, st, slot, ballot).0
    case AcceptOp(slot, ballot, value) => Accept(cfg, st, slot, ballot, value).0
    case RestartOp => Restart(cfg, st)
  }

  function After(cfg: StorageConfig, ops: seq<Op>): AcceptorState
    requires cfg.Valid()
  {
    if ops == [] then Fresh() else Do(cfg, After(cfg, ops[..|ops| - 1]), ops[|ops| - 1])
  }

  function NextSlot(st: AcceptorState): nat {
    if st.accepted.Keys == {} then 1 else MaxOf(st.accepted.Keys) + 1
  }

  /** No slot the next load would read lies above the newest one in memory. */
  predicate NothingForgotten(cfg: StorageConfig, st: AcceptorState) {
    forall s :: s in Readable(cfg, st.store) ==> s < NextSlot(st)
  }

  predicate OldestReadable(cfg: StorageConfig, st: AcceptorState) {
    st.accepted.Keys != {} ==> MinOf(st.accepted.Keys) in Readable(cfg, st.store)
  }

  /** Told from memory and disk before a restart: without a promise file nothing is read,
      so there may be nothing to lose; with one, the slots that can be read must end where
      memory ends and include the slot where memory begins. */
  predicate Recoverable(cfg: StorageConfig, st: AcceptorState) {
    if st.savedPromises == None then st.accepted.Keys == {}
    else NothingForgotten(cfg, st) && OldestReadable(cfg, st)
  }

  /** New accepts take the next slot; repeats, refusals and prepares are free.  A restart
      may lose anything, low slots or all of memory, but not bring back forgotten slots. */
  predicate InOrder(cfg: StorageConfig, st: AcceptorState, op: Op) {
    match op
    case PrepareOp(_, _) => true
    case AcceptOp(slot, ballot, _) =>
      ballot < HighestPromised(st.promises) || slot in st.accepted || slot == NextSlot(st)
    case RestartOp => st.savedPromises == None || NothingForgotten(cfg, st)
  }

  predicate InOrderRun(cfg: StorageConfig, ops: seq<Op>)
    requires cfg.Valid()
  {
    ops == [] ||
    (InOrderRun(cfg, ops[..|ops| - 1]) && InOrder(cfg, After(cfg, ops[..|ops| - 1]), ops[|ops| - 1]))
  }

  ghost predicate Durable(cfg: StorageConfig, st: AcceptorState, line: Line<PValue>)
    requires cfg.Valid()
  {
    && InStep(cfg, false, line, st.store, st.accepted)
    && st.savedPromises == if st.promises == [] then None else Some(st.promises)
  }

  lemma NextSlotInStep(cfg: StorageConfig, st: AcceptorState, line: Line<PValue>)
    requires cfg.Valid() && Durable(cfg, st, line)
    ensures NextSlot(st) == |line.vals| + 1
    ensures st.accepted.Keys == {} <==> line.vals == []
  {
    hide StorageConfig.OnGrid, Tiles, Start, Tail, Positive, LastN;
    if line.vals != [] {
      var n: Slot := |line.vals|;
      assert n in st.accepted.Keys;
      assert MaxOf(st.accepted.Keys) == n;
    }
  }

  lemma RestartExactly(cfg: StorageConfig, st: AcceptorState, line: Line<PValue>)
    requires cfg.Valid() && cfg.enabled && Durable(cfg, st, line)
    ensures var r := Restart(cfg, st);
      r.promises == st.promises && r.accepted == st.accepted <==> Recoverable(cfg, st)
  {
    hide InStep, Readable, Restore;
    NextSlotInStep(cfg, st, line);
    RestoresExactly(cfg, false, line, st.store, st.accepted);
    if st.savedPromises == None && st.accepted.Keys == {} {
      assert st.accepted == map[];
    }
  }

  lemma RestartStaysDurable(cfg: StorageConfig, st: AcceptorState, line: Line<PValue>) returns (next: Line<PValue>)
    requires cfg.Valid() && cfg.enabled && Durable(cfg, st, line) && InOrder(cfg, st, RestartOp)
    ensures Durable(cfg, Restart(cfg, st), next)
  {
    hide InStep, Readable, Restore, LastN;
    NextSlotInStep(cfg, st, line);
    if st.savedPromises == None {
      next := Line([], 0, 0, LastN(st.store.snapshots, cfg.loadSnapshots), st.store.changes);
      ForgottenStartsAnew(cfg, false, line, st.store, st.accepted);
    } else {
      next := Reread(cfg, line, st.store);
      RereadKeepsStep(cfg, false, line, st.store, st.accepted);
    }
  }

  lemma AcceptStaysDurable(cfg: StorageConfig, st: AcceptorState, line: Line<PValue>, slot: Slot, ballot: Ballot, value: Value)
    returns (next: Line<PValue>)
    requires cfg.Valid() && cfg.enabled && 0 < cfg.maxSnapshots && Durable(cfg, st, line)
    requires InOrder(cfg, st, AcceptOp(slot, ballot, value))
    ensures Durable(cfg, Accept(cfg, st, slot, ballot, value).0, next)
  {
    next := line;
    if HighestPromised(st.promises) <= ballot && slot !in st.accepted {
      NextSlotInStep(cfg, st, line);
      hide StorageConfig.OnGrid, InStep, Checkpoint, Prune;
      var p := PValue(slot, ballot, Some(value));
      if cfg.OnGrid(slot) {
        next := Checkpointed(cfg, line, st.store, p);
        CheckpointKeepsStep(cfg, false, line, st.store, st.accepted, p);
      } else {
        next := Entered(line, p);
        EntryKeepsStep(cfg, false, line, st.store, st.accepted, p);
      }
    }
  }

  lemma {:induction false} RunStaysDurable(cfg: StorageConfig, ops: seq<Op>) returns (line: Line<PValue>)
    requires cfg.Valid() && cfg.enabled && 0 < cfg.maxSnapshots && InOrderRun(cfg, ops)
    ensures Durable(cfg, After(cfg, ops), line)
  {
    hide InStep, InOrder, Restart;
    if ops == [] {
      line := Line([], 0, 0, [], []);
      EmptyInStep<PValue>(cfg, false);
    } else {
      line := RunStaysDurable(cfg, ops[..|ops| - 1]);
      line := StepStaysDurable(cfg, After(cfg, ops[..|ops| - 1]), line, ops[|ops| - 1]);
    }
  }

  lemma StepStaysDurable(cfg: StorageConfig, st: AcceptorState, line: Line<PValue>, op: Op) returns (next: Line<PValue>)
    requires cfg.Valid() && cfg.enabled && 0 < cfg.maxSnapshots && Durable(cfg, st, line) && InOrder(cfg, st, op)
    ensures Durable(cfg, Do(cfg, st, op), next)
  {
    hide InStep, Restart;
    match op
    case PrepareOp(slot, ballot) => next := line;
    case AcceptOp(slot, ballot, value) => next := AcceptStaysDurable(cfg, st, line, slot, ballot, value);
    case RestartOp => next := RestartStaysDurable(cfg, st, line);
  }

  /** Recovery is exact.  Take any run whose new accepts are in order, with any number of
      restarts in it that lost what they lost but brought no forgotten slot back.  The
      next restart gives back the promises and the (pruned) accepted map as they are in
      memory if and only if the state is recoverable. */
  lemma RecoveryIsExact(cfg: StorageConfig, ops: seq<Op>)
    requires cfg.Valid() && cfg.enabled && 0 < cfg.maxSnapshots && InOrderRun(cfg, ops)
    ensures var (live, restarted) := (After(cfg, ops), Restart(cfg, After(cfg, ops)));
      restarted.promises == live.promises && restarted.accepted == live.accepted <==> Recoverable(cfg, live)
  {
    hide Recoverable, Restart;
    var line := RunStaysDurable(cfg, ops);
    RestartExactly(cfg, After(cfg, ops), line);
  }

  /** Half of it needs no run at all: a restart that gives memory back finds a
      recoverable state, whatever led there. */
  lemma OnlyRecoverableIsRestored(cfg: StorageConfig, st: AcceptorState)
    requires cfg.Valid() && cfg.enabled && Restart(cfg, st).accepted == st.accepted
    ensures Recoverable(cfg, st)
  {
    RestoredHasSameSlots(cfg, st);
    SameSlotsIsRecoverable(cfg, st);
  }

  // ----- when forgotten slots come back ---------------------------------------------------

  /** In order, or a restart that brings forgotten slots back while no two records of a
      slot differ. */
  ghost predicate Reunites(cfg: StorageConfig, st: AcceptorState, op: Op) {
    InOrder(cfg, st, op) || (op.RestartOp? && Consistent(cfg, st.store))
  }

  ghost predicate ReunitingRun(cfg: StorageConfig, ops: seq<Op>)
    requires cfg.Valid()
  {
    ops == [] ||
    (ReunitingRun(cfg, ops[..|ops| - 1]) && Reunites(cfg, After(cfg, ops[..|ops| - 1]), ops[|ops| - 1]))
  }

  /** Memory ends where the disk ends, and no record contradicts it or another one. */
  ghost predicate Settled(cfg: StorageConfig, st: AcceptorState) {
    && st.savedPromises == Some(st.promises) && NothingForgotten(cfg, st) && Consistent(cfg, st.store)
    && forall s, p :: s in st.accepted && Record(cfg, st.store, s, p) ==> st.accepted[s] == p
  }

  lemma RestoredAgrees(cfg: StorageConfig, store: Store<PValue>, s: Slot, p: PValue)
    requires Consistent(cfg, store) && Record(cfg, store, s, p)
    ensures s in Restore(cfg, Reopened(store)) && Restore(cfg, Reopened(store))[s] == p
  {
    hide Restore, Readable, Record;
    ReopenedRecords(cfg, store);
    RecordedIsReadable(cfg, store, s, p);
    ReadableIsRestored(cfg, Reopened(store));
    ReopenedReads(cfg, store);
    RestoredIsRecorded(cfg, Reopened(store), s);
  }

  lemma ReopenedRecords(cfg: StorageConfig, store: Store<PValue>)
    ensures forall s, p :: Record(cfg, Reopened(store), s, p) <==> Record(cfg, store, s, p)
  {
  }

  lemma RestartSettles(cfg: StorageConfig, st: AcceptorState)
    requires cfg.Valid() && cfg.enabled && st.savedPromises.Some? && Consistent(cfg, st.store)
    ensures Settled(cfg, Restart(cfg, st))
  {
    hide Restore, Readable, Record;
    ReopenedRecords(cfg, st.store);
    ReadableIsRestored(cfg, Reopened(st.store));
    ReopenedReads(cfg, st.store);
    forall s, p | Record(cfg, st.store, s, p)
      ensures s in Restart(cfg, st).accepted && Restart(cfg, st).accepted[s] == p
    {
      RestoredAgrees(cfg, st.store, s, p);
    }
  }

  lemma AcceptStaysSettled(cfg: StorageConfig, st: AcceptorState, slot: Slot, ballot: Ballot, value: Value)
    requires cfg.Valid() && 0 < cfg.maxSnapshots && Settled(cfg, st) && InOrder(cfg, st, AcceptOp(slot, ballot, value))
    ensures Settled(cfg, Accept(cfg, st, slot, ballot, value).0)
  {
    hide Readable, Record, MaybeSnapshot, NothingForgotten;
    AcceptForgetsNothing(cfg, st, slot, ballot, value);
    if HighestPromised(st.promises) <= ballot && slot !in st.accepted {
      NewSlotUnrecorded(cfg, st);
      var p := PValue(slot, ballot, Some(value));
      var (store, live) := (SaveChange(cfg, st.store, Entry(slot, p)), st.accepted[slot := p]);
      var (store', live') := MaybeSnapshot(cfg, store, live, slot, None);
      MaybeSnapshotKeeps(cfg, store, live, slot, None);
      forall s, r | Record(cfg, store', s, r) ensures (s in live && live[s] == r) || (s !in live && Record(cfg, st.store, s, r)) {
        SnapshotRecords(cfg, store, live, slot, None, s, r);
        if Record(cfg, store, s, r) {
          SaveRecords(cfg, st.store, Entry(slot, p), s, r);
        }
      }
    }
  }

  lemma NewSlotUnrecorded(cfg: StorageConfig, st: AcceptorState)
    requires NothingForgotten(cfg, st)
    ensures forall s: Slot, p :: s == NextSlot(st) ==> !Record(cfg, st.store, s, p)
  {
    hide Readable, Record;
    forall s: Slot, p | Record(cfg, st.store, s, p) ensures s < NextSlot(st) {
      RecordedIsReadable(cfg, st.store, s, p);
    }
  }

  lemma StepStaysSettled(cfg: StorageConfig, st: AcceptorState, op: Op)
    requires cfg.Valid() && cfg.enabled && 0 < cfg.maxSnapshots && Settled(cfg, st) && Reunites(cfg, st, op)
    ensures Settled(cfg, Do(cfg, st, op))
  {
    hide Record, Readable, Restart, Accept;
    match op
    case PrepareOp(slot, ballot) =>
    case AcceptOp(slot, ballot, value) => AcceptStaysSettled(cfg, st, slot, ballot, value);
    case RestartOp => RestartSettles(cfg, st);
  }

  lemma {:induction false} RunIsOneOrTheOther(cfg: StorageConfig, ops: seq<Op>)
    requires cfg.Valid() && cfg.enabled && 0 < cfg.maxSnapshots && ReunitingRun(cfg, ops)
    ensures Settled(cfg, After(cfg, ops)) || exists line :: Durable(cfg, After(cfg, ops), line)
  {
    hide Settled, Durable, InOrder, Restart, Consistent;
    if ops == [] {
      var line := RunStaysDurable(cfg, ops);
    } else {
      var (st, op) := (After(cfg, ops[..|ops| - 1]), ops[|ops| - 1]);
      RunIsOneOrTheOther(cfg, ops[..|ops| - 1]);
      if Settled(cfg, st) {
        StepStaysSettled(cfg, st, op);
      } else if InOrder(cfg, st, op) {
        var line :| Durable(cfg, st, line);
        var next := StepStaysDurable(cfg, st, line, op);
      } else {
        OutOfOrderHasPromises(cfg, st);
        RestartSettles(cfg, st);
      }
    }
  }

  lemma OutOfOrderHasPromises(cfg: StorageConfig, st: AcceptorState)
    requires !InOrder(cfg, st, RestartOp)
    ensures st.savedPromises.Some?
  {
  }

  /** The slots that can be read are those in memory; without a promise file, none are. */
  predicate SameSlots(cfg: StorageConfig, st: AcceptorState) {
    st.accepted.Keys == if st.savedPromises == None then {} else Readable(cfg, st.store)
  }

  lemma SettledRestartsExactly(cfg: StorageConfig, st: AcceptorState)
    requires cfg.Valid() && cfg.enabled && Settled(cfg, st)
    ensures var r := Restart(cfg, st); r.promises == st.promises && r.accepted == st.accepted <==> SameSlots(cfg, st)
  {
    hide Restore, Readable, Record, Consistent;
    ReadableIsRestored(cfg, Reopened(st.store));
    ReopenedReads(cfg, st.store);
    ReopenedRecords(cfg, st.store);
    if SameSlots(cfg, st) {
      forall s | s in st.accepted ensures Restart(cfg, st).accepted[s] == st.accepted[s] {
        RestoredIsRecorded(cfg, Reopened(st.store), s);
      }
    }
  }

  lemma RestoredHasSameSlots(cfg: StorageConfig, st: AcceptorState)
    requires cfg.Valid() && cfg.enabled && Restart(cfg, st).accepted == st.accepted
    ensures SameSlots(cfg, st)
  {
    hide Restore, Readable;
    ReadableIsRestored(cfg, Reopened(st.store));
    ReopenedReads(cfg, st.store);
  }

  lemma SameSlotsIsRecoverable(cfg: StorageConfig, st: AcceptorState)
    requires SameSlots(cfg, st)
    ensures Recoverable(cfg, st)
  {
    hide Readable;
  }

  /** Recovery is exact slot by slot.  Forgotten slots may now come back in restarts, as
      long as no two readable records of a slot differ then.  The next restart gives back
      promises and values as they are in memory if and only if the slots that can be read
      are those in memory. */
  lemma RecoveryIsExactBySlots(cfg: StorageConfig, ops: seq<Op>)
    requires cfg.Valid() && cfg.enabled && 0 < cfg.maxSnapshots && ReunitingRun(cfg, ops)
    ensures var (live, restarted) := (After(cfg, ops), Restart(cfg, After(cfg, ops)));
      restarted.promises == live.promises && restarted.accepted == live.accepted <==> SameSlots(cfg, live)
  {
    hide SameSlots, Restart, Settled, Durable, Recoverable;
    var live := After(cfg, ops);
    RunIsOneOrTheOther(cfg, ops);
    if Settled(cfg, live) {
      SettledRestartsExactly(cfg, live);
    } else {
      var line :| Durable(cfg, live, line);
      RestartExactly(cfg, live, line);
      if SameSlots(cfg, live) {
        SameSlotsIsRecoverable(cfg, live);
      } else if Restart(cfg, live).accepted == live.accepted {
        RestoredHasSameSlots(cfg, live);
      }
    }
  }

  // ----- when nothing is ever forgotten ---------------------------------------------------

  /** In order, and every restart that had anything to lose found a promise file. */
  predicate PromisedRun(cfg: StorageConfig, ops: seq<Op>)
    requires cfg.Valid()
  {
    ops == [] ||
    var (init, op) := (ops[..|ops| - 1], ops[|ops| - 1]);
    var st := After(cfg, init);
    && PromisedRun(cfg, init)
    && (op.RestartOp? ==> st.savedPromises.Some? || st.accepted.Keys == {})
    && (op.AcceptOp? ==> InOrder(cfg, st, op))
  }

  lemma NewestIsKept(cfg: StorageConfig, store: Store<PValue>, accepted: map<Slot, PValue>, slot: Slot)
    requires cfg.Valid() && 0 < slot && slot in accepted && forall s :: s in accepted ==> s <= slot
    ensures var kept := MaybeSnapshot(cfg, store, accepted, slot, None).1;
      kept.Keys != {} && MaxOf(kept.Keys) == slot
  {
    hide Checkpoint, StorageConfig.OnGrid, Prune;
    assert MaxOf(accepted.Keys) == slot;
    PruneKeepsNewest(cfg, accepted, slot);
    var kept := MaybeSnapshot(cfg, store, accepted, slot, None).1;
    assert kept.Keys <= accepted.Keys && slot in kept.Keys;
  }

  lemma PruneKeepsNewest(cfg: StorageConfig, accepted: map<Slot, PValue>, slot: Slot)
    requires cfg.Valid() && 0 < slot && slot in accepted && MaxOf(accepted.Keys) == slot
    ensures slot in Prune(cfg, accepted) && Prune(cfg, accepted).Keys <= accepted.Keys
  {
  }

  lemma AcceptForgetsNothing(cfg: StorageConfig, st: AcceptorState, slot: Slot, ballot: Ballot, value: Value)
    requires cfg.Valid() && 0 < cfg.maxSnapshots && NothingForgotten(cfg, st)
    requires InOrder(cfg, st, AcceptOp(slot, ballot, value))
    ensures NothingForgotten(cfg, Accept(cfg, st, slot, ballot, value).0)
  {
    if HighestPromised(st.promises) <= ballot && slot !in st.accepted {
      var e := Entry(slot, PValue(slot, ballot, Some(value)));
      var (store, live) := (SaveChange(cfg, st.store, e), st.accepted[slot := e.item]);
      hide MaybeSnapshot, Readable;
      SaveReads(cfg, st.store, e);
      SnapshotReads(cfg, store, live, slot, None);
      NewestIsKept(cfg, store, live, slot);
    }
  }

  lemma RestartForgetsNothing(cfg: StorageConfig, st: AcceptorState)
    requires cfg.Valid() && cfg.enabled && NothingForgotten(cfg, st)
    requires st.savedPromises.Some? || st.accepted.Keys == {}
    ensures NothingForgotten(cfg, Restart(cfg, st))
  {
    hide Readable, Restore;
    ReadableIsRestored(cfg, Reopened(st.store));
    ReopenedReads(cfg, st.store);
  }

  lemma {:induction false} PromisedForgetsNothing(cfg: StorageConfig, ops: seq<Op>)
    requires cfg.Valid() && cfg.enabled && 0 < cfg.maxSnapshots && PromisedRun(cfg, ops)
    ensures NothingForgotten(cfg, After(cfg, ops)) && InOrderRun(cfg, ops)
  {
    hide Readable, Restart, Accept;
    if ops == [] {
      NothingAtFirst(cfg);
    } else {
      var st := After(cfg, ops[..|ops| - 1]);
      PromisedForgetsNothing(cfg, ops[..|ops| - 1]);
      match ops[|ops| - 1]
      case PrepareOp(slot, ballot) =>
      case AcceptOp(slot, ballot, value) => AcceptForgetsNothing(cfg, st, slot, ballot, value);
      case RestartOp => RestartForgetsNothing(cfg, st);
    }
  }

  lemma NothingAtFirst(cfg: StorageConfig)
    ensures Readable(cfg, Fresh().store) == {}
  {
  }

  /** With at least as many snapshots loaded as kept, and a promise on disk before the
      first restart that had anything to lose, every restart changes nothing. */
  lemma RecoveryIsANoOp(cfg: StorageConfig, ops: seq<Op>)
    requires cfg.Valid() && cfg.enabled && 0 < cfg.maxSnapshots <= cfg.loadSnapshots && PromisedRun(cfg, ops)
    requires After(cfg, ops).savedPromises.Some? || After(cfg, ops).accepted.Keys == {}
    ensures Restart(cfg, After(cfg, ops)).promises == After(cfg, ops).promises
    ensures Restart(cfg, After(cfg, ops)).accepted == After(cfg, ops).accepted
  {
    hide Restart, Readable, InStep, After, PromisedRun;
    PromisedForgetsNothing(cfg, ops);
    var line := RunStaysDurable(cfg, ops);
    OldestIsReadable(cfg, false, line, After(cfg, ops).store, After(cfg, ops).accepted);
    RestartExactly(cfg, After(cfg, ops), line);
  }

  // ----- what the conditions keep out -------------------------------------------------------

  lemma RunSnoc(cfg: StorageConfig, ops: seq<Op>, op: Op)
    requires cfg.Valid()
    ensures After(cfg, ops + [op]) == Do(cfg, After(cfg, ops), op)
    ensures InOrderRun(cfg, ops + [op]) <==> InOrderRun(cfg, ops) && InOrder(cfg, After(cfg, ops), op)
  {
    assert (ops + [op])[..|ops|] == ops;
  }

  function Entries(accepted: map<Slot, PValue>, promises: seq<Ballot>, saved: Option<seq<Ballot>>, changes: seq<Entry<PValue>>)
    : AcceptorState
  {
    AcceptorState(promises, accepted, saved, Store(0, 0, [], changes))
  }

  const RARELY: StorageConfig := StorageConfig(true, 100, 50, 5, 5)

  /** One in-order accept between checkpoints. */
  lemma PlainAccept(accepted: map<Slot, PValue>, changes: seq<Entry<PValue>>, slot: Slot, v: Value)
    requires slot < 50 && slot !in accepted
    ensures var p := PValue(slot, 0, Some(v));
      Accept(RARELY, Entries(accepted, [], None, changes), slot, 0, v) ==
        (Entries(accepted[slot := p], [], None, changes + [Entry(slot, p)]), Accepted(slot, 0))
  {
  }

  /** Two accepts before any promise. */
  lemma TwoAccepted(u: Value)
    ensures var (p, q) := (PValue(1, 0, Some(u)), PValue(2, 0, Some(u)));
      var (one, two) := ([AcceptOp(1, 0, u)], [AcceptOp(1, 0, u), AcceptOp(2, 0, u)]);
      && After(RARELY, one) == Entries(map[1 := p], [], None, [Entry(1, p)]) && InOrderRun(RARELY, one)
      && After(RARELY, two) == Entries(map[1 := p, 2 := q], [], None, [Entry(1, p), Entry(2, q)]) && InOrderRun(RARELY, two)
  {
    hide Accept, After, InOrderRun;
    var (p, q) := (PValue(1, 0, Some(u)), PValue(2, 0, Some(u)));
    var first: map<Slot, PValue> := map[1 := p];
    NothingYet(RARELY);
    RunSnoc(RARELY, [], AcceptOp(1, 0, u));
    RunSnoc(RARELY, [AcceptOp(1, 0, u)], AcceptOp(2, 0, u));
    PlainAccept(map[], [], 1, u);
    PlainAccept(first, [Entry(1, p)], 2, u);
    assert [] + [AcceptOp(1, 0, u)] == [AcceptOp(1, 0, u)] && [] + [Entry(1, p)] == [Entry(1, p)];
    assert [Entry(1, p)] + [Entry(2, q)] == [Entry(1, p), Entry(2, q)] && first[2 := q] == map[1 := p, 2 := q];
    assert [AcceptOp(1, 0, u)] + [AcceptOp(2, 0, u)] == [AcceptOp(1, 0, u), AcceptOp(2, 0, u)];
    assert first.Keys == {1} && MaxOf(first.Keys) == 1;
  }

  lemma NothingYet(cfg: StorageConfig)
    requires cfg.Valid()
    ensures After(cfg, []) == Fresh() && InOrderRun(cfg, []) && NextSlot(Fresh()) == 1
  {
  }

  /** Without a promise file a restart reads nothing, though the accepted value is on disk. */
  lemma MissingPromiseFileForgets(v: Value)
    ensures var live := After(RARELY, [AcceptOp(1, 0, v)]);
      && InOrderRun(RARELY, [AcceptOp(1, 0, v)])
      && 1 in live.accepted && 1 in Readable(RARELY, live.store) && Restart(RARELY, live).accepted == map[]
  {
    hide After, InOrderRun;
    TwoAccepted(v);
    assert After(RARELY, [AcceptOp(1, 0, v)]).store.changes[0].slot == 1;
  }

  /** An acceptor that restarts before its first promise takes a second value for slot 1,
      and once a promise is saved the next restart brings the forgotten slot 2 back. */
  lemma ForgottenSlotsReturn(u: Value, v: Value)
    requires u != v
    ensures var begun := [AcceptOp(1, 0, u), AcceptOp(2, 0, u)] + [RestartOp];
      var ops := begun + [AcceptOp(1, 0, v)] + [PrepareOp(1, 5)];
      && InOrderRun(RARELY, ops)
      && Accept(RARELY, Fresh(), 1, 0, u).1 == Accepted(1, 0)
      && Accept(RARELY, After(RARELY, begun), 1, 0, v).1 == Accepted(1, 0)
      && After(RARELY, ops).savedPromises == Some([5])
      && 2 !in After(RARELY, ops).accepted && 2 in Restart(RARELY, After(RARELY, ops)).accepted
  {
    hide After, InOrderRun, Accept, CollectFrom, Restore;
    var (p, q, r) := (PValue(1, 0, Some(u)), PValue(2, 0, Some(u)), PValue(1, 0, Some(v)));
    var begun := [AcceptOp(1, 0, u), AcceptOp(2, 0, u)] + [RestartOp];
    var changes := [Entry(1, p), Entry(2, q)];
    TwoAccepted(u);
    PlainAccept(map[], [], 1, u);
    PlainAccept(map[], changes, 1, v);
    RunSnoc(RARELY, [AcceptOp(1, 0, u), AcceptOp(2, 0, u)], RestartOp);
    RunSnoc(RARELY, begun, AcceptOp(1, 0, v));
    RunSnoc(RARELY, begun + [AcceptOp(1, 0, v)], PrepareOp(1, 5));
    var none: seq<Ballot> := [];
    assert none + [5] == [5];
    var live := After(RARELY, begun + [AcceptOp(1, 0, v)] + [PrepareOp(1, 5)]);
    assert live.store.changes == changes + [Entry(1, r)] && live.store.changes[1].slot == 2;
    ReadableIsRestored(RARELY, Reopened(live.store));
    assert 2 in Readable(RARELY, Reopened(live.store));
  }

  // ----- why a restart must not bring forgotten slots back ----------------------------------

  const PAIRS: StorageConfig := StorageConfig(true, 2, 0, 5, 5)

  /** Slots 1 and 2 with value `u`, both in the checkpoint at slot 2. */
  function PairOf(u: Value): map<Slot, PValue> { map[1 := PValue(1, 0, Some(u)), 2 := PValue(2, 0, Some(u))] }

  /** The disk of the story: that checkpoint, and then the accept of `v` for slot 1. */
  function PairDisk(u: Value, v: Value): Store<PValue> {
    Store(0, 0, [Snapshot(None, PairOf(u))], [Entry(1, PValue(1, 0, Some(v)))])
  }

  lemma PairAccepted(u: Value)
    ensures var ops := [AcceptOp(1, 0, u)] + [AcceptOp(2, 0, u)];
      After(PAIRS, ops) == AcceptorState([], PairOf(u), None, Store(2, 0, [Snapshot(None, PairOf(u))], []))
  {
    var p := PValue(1, 0, Some(u));
    var first: map<Slot, PValue> := map[1 := p];
    assert [AcceptOp(1, 0, u)][..0] == [];
    assert After(PAIRS, [AcceptOp(1, 0, u)]) == AcceptorState([], first, None, Store(0, 0, [], [Entry(1, p)]));
    RunSnoc(PAIRS, [AcceptOp(1, 0, u)], AcceptOp(2, 0, u));
    hide After;
    var pair := PairOf(u);
    assert first[2 := PValue(2, 0, Some(u))] == pair;
    assert pair.Keys == {1, 2} && MaxOf(pair.Keys) == 2;
    assert Above(pair.Keys, 1) == {2} && Above(pair.Keys, 2) == {};
    assert Top(pair, 2) == pair && Prune(PAIRS, pair) == pair;
  }

  /** The restart brings slot 2 back beside the new value of slot 1. */
  lemma PairComesBack(u: Value, v: Value)
    ensures Restore(PAIRS, PairDisk(u, v)) == PairOf(u)[1 := PValue(1, 0, Some(v))]
  {
    var s := Snapshot(None, PairOf(u));
    CombineSnoc([], s);
    assert [] + [s] == [s] && map[] + PairOf(u) == PairOf(u);
    ReplaySnoc(PairOf(u), [], Entry(1, PValue(1, 0, Some(v))));
    assert [] + [Entry(1, PValue(1, 0, Some(v)))] == [Entry(1, PValue(1, 0, Some(v)))];
  }

  /** Two more accepts make a checkpoint that has neither slot 1 nor its new value. */
  lemma NextPair(u: Value, v: Value)
    ensures var live := PairOf(u)[1 := PValue(1, 0, Some(v))];
      var (p3, p4) := (PValue(3, 5, Some(u)), PValue(4, 5, Some(u)));
      var st := Do(PAIRS, AcceptorState([5], live, Some([5]), PairDisk(u, v)), AcceptOp(3, 5, u));
      Do(PAIRS, st, AcceptOp(4, 5, u)) ==
        AcceptorState([5], live[3 := p3][4 := p4], Some([5]),
                      Store(4, 0, [Snapshot(None, PairOf(u)), Snapshot(None, map[3 := p3, 4 := p4])], []))
  {
    hide Prune, Top, MaxOf;
    FourthSlotTrims(PairOf(u)[1 := PValue(1, 0, Some(v))], PValue(3, 5, Some(u)), PValue(4, 5, Some(u)));
  }

  lemma FourthSlotTrims(live: map<Slot, PValue>, p3: PValue, p4: PValue)
    requires live.Keys == {1, 2}
    ensures var all := live[3 := p3][4 := p4];
      && Top(all, 2) == map[3 := p3, 4 := p4] && Prune(PAIRS, all) == all && 4 in all.Keys && MaxOf(all.Keys) == 4
  {
    var all := live[3 := p3][4 := p4];
    assert all.Keys == {1, 2, 3, 4} && MaxOf(all.Keys) == 4;
    assert Above(all.Keys, 4) == {} && Above(all.Keys, 3) == {4};
    assert Above(all.Keys, 2) == {3, 4} && Above(all.Keys, 1) == {2, 3, 4};
  }

  lemma StaleValueRead(u: Value)
    ensures var top: map<Slot, PValue> := map[3 := PValue(3, 5, Some(u)), 4 := PValue(4, 5, Some(u))];
      Restore(PAIRS, Store(0, 0, [Snapshot(None, PairOf(u)), Snapshot(None, top)], [])) == PairOf(u) + top
  {
    var top: map<Slot, PValue> := map[3 := PValue(3, 5, Some(u)), 4 := PValue(4, 5, Some(u))];
    var (s, t) := (Snapshot(None, PairOf(u)), Snapshot(None, top));
    CombineSnoc([s], t);
    CombineSnoc([], s);
    assert [s] + [t] == [s, t] && [] + [s] == [s] && map[] + PairOf(u) == PairOf(u);
  }

  lemma BackInMemory(u: Value, v: Value)
    ensures var lost := AcceptorState([], map[], None, Store(0, 0, [Snapshot(None, PairOf(u))], []));
      Do(PAIRS, Do(PAIRS, Do(PAIRS, lost, AcceptOp(1, 0, v)), PrepareOp(1, 5)), RestartOp) ==
        AcceptorState([5], PairOf(u)[1 := PValue(1, 0, Some(v))], Some([5]), PairDisk(u, v))
  {
    hide Restore, CollectFrom;
    PairComesBack(u, v);
    var none: seq<Ballot> := [];
    assert none + [5] == [5];
    var p := PValue(1, 0, Some(v));
    var first: map<Slot, PValue> := map[1 := p];
    var begun := AcceptorState([], first, None, PairDisk(u, v));
    assert Do(PAIRS, AcceptorState([], map[], None, Store(0, 0, [Snapshot(None, PairOf(u))], [])), AcceptOp(1, 0, v)) == begun;
    assert Do(PAIRS, begun, PrepareOp(1, 5)) == AcceptorState([5], first, Some([5]), PairDisk(u, v));
  }

  lemma BothEndsAgree(live: AcceptorState, u: Value, v: Value)
    requires var top: map<Slot, PValue> := map[3 := PValue(3, 5, Some(u)), 4 := PValue(4, 5, Some(u))];
      && live.accepted.Keys == {1, 2, 3, 4} && live.savedPromises.Some?
      && Restore(PAIRS, Reopened(live.store)) == PairOf(u) + top
    ensures Recoverable(PAIRS, live)
  {
    hide Restore, Readable;
    ReadableIsRestored(PAIRS, Reopened(live.store));
    ReopenedReads(PAIRS, live.store);
    assert MaxOf(live.accepted.Keys) == 4 && MinOf(live.accepted.Keys) == 1;
  }

  /** A restart that brings slot 2 back makes memory end where the disk ends, so both ends
      agree from then on.  Yet slot 1, acknowledged with `v`, leaves the changelog at the
      next checkpoint without entering the snapshot, and a restart reads the older `u`. */
  lemma ReturnedSlotsHideAStaleValue(u: Value, v: Value)
    requires u != v
    ensures var lost := [AcceptOp(1, 0, u)] + [AcceptOp(2, 0, u)] + [RestartOp];
      var back := lost + [AcceptOp(1, 0, v)] + [PrepareOp(1, 5)] + [RestartOp];
      var live := After(PAIRS, back + [AcceptOp(3, 5, u)] + [AcceptOp(4, 5, u)]);
      && Recoverable(PAIRS, live)
      && 1 in live.accepted && live.accepted[1].value == Some(v)
      && 1 in Restart(PAIRS, live).accepted && Restart(PAIRS, live).accepted[1].value == Some(u)
  {
    hide After, InOrderRun, Do, Restart, Recoverable, Restore;
    var lost := [AcceptOp(1, 0, u)] + [AcceptOp(2, 0, u)] + [RestartOp];
    var back := lost + [AcceptOp(1, 0, v)] + [PrepareOp(1, 5)] + [RestartOp];
    PairAccepted(u);
    PairLost(u);
    RunSnoc(PAIRS, [AcceptOp(1, 0, u)] + [AcceptOp(2, 0, u)], RestartOp);
    RunSnoc(PAIRS, lost, AcceptOp(1, 0, v));
    RunSnoc(PAIRS, lost + [AcceptOp(1, 0, v)], PrepareOp(1, 5));
    RunSnoc(PAIRS, lost + [AcceptOp(1, 0, v)] + [PrepareOp(1, 5)], RestartOp);
    RunSnoc(PAIRS, back, AcceptOp(3, 5, u));
    RunSnoc(PAIRS, back + [AcceptOp(3, 5, u)], AcceptOp(4, 5, u));
    BackInMemory(u, v);
    NextPair(u, v);
    var live := After(PAIRS, back + [AcceptOp(3, 5, u)] + [AcceptOp(4, 5, u)]);
    StaleRestart(live, u);
    BothEndsAgree(live, u, v);
  }

  lemma PairLost(u: Value)
    ensures Do(PAIRS, AcceptorState([], PairOf(u), None, Store(2, 0, [Snapshot(None, PairOf(u))], [])), RestartOp) ==
      AcceptorState([], map[], None, Store(0, 0, [Snapshot(None, PairOf(u))], []))
  {
  }

  lemma StaleRestart(live: AcceptorState, u: Value)
    requires var top: map<Slot, PValue> := map[3 := PValue(3, 5, Some(u)), 4 := PValue(4, 5, Some(u))];
      live.store == Store(4, 0, [Snapshot(None, PairOf(u)), Snapshot(None, top)], [])
    requires live.savedPromises.Some?
    ensures var top: map<Slot, PValue> := map[3 := PValue(3, 5, Some(u)), 4 := PValue(4, 5, Some(u))];
      Restore(PAIRS, Reopened(live.store)) == PairOf(u) + top
    ensures 1 in Restart(PAIRS, live).accepted && Restart(PAIRS, live).accepted[1].value == Some(u)
  {
    hide Restore;
    StaleValueRead(u);
  }

  const EVERY_SLOT: StorageConfig := StorageConfig(true, 1, 0, 5, 5)

  /** After slots 5 and then 3 were accepted, the snapshot has the first of them. */
  lemma LateAccept(v: Value)
    ensures var (p5, p3) := (PValue(5, 1, Some(v)), PValue(3, 1, Some(v)));
      var five: map<Slot, PValue> := map[5 := p5];
      After(EVERY_SLOT, [PrepareOp(1, 1), AcceptOp(5, 1, v), AcceptOp(3, 1, v)]) ==
        AcceptorState([1], five[3 := p3], Some([1]), Store(5, 0, [Snapshot(None, five)], [Entry(3, p3)]))
  {
    var cfg := EVERY_SLOT;
    var (o1, o2, o3) := (PrepareOp(1, 1), AcceptOp(5, 1, v), AcceptOp(3, 1, v));
    var p5 := PValue(5, 1, Some(v));
    assert [o1][..0] == [] && [o1, o2][..1] == [o1] && [o1, o2, o3][..2] == [o1, o2];
    assert After(cfg, [o1]).promises == [1];
    var five: map<Slot, PValue> := map[5 := p5];
    assert five.Keys == {5} && MaxOf(five.Keys) == 5;
    assert Above(five.Keys, 5) == {};
    assert Top(five, 1) == five && Prune(cfg, five) == five;
    assert After(cfg, [o1, o2]) == AcceptorState([1], five, Some([1]), Store(5, 0, [Snapshot(None, five)], []));
  }

  /** The checkpoint at slot 6 then keeps slot 6 alone and empties the changelog. */
  lemma CheckpointDropsLate(v: Value)
    ensures var (p5, p3, p6) := (PValue(5, 1, Some(v)), PValue(3, 1, Some(v)), PValue(6, 1, Some(v)));
      var five: map<Slot, PValue> := map[5 := p5];
      var six: map<Slot, PValue> := map[6 := p6];
      var st := Do(EVERY_SLOT,
        AcceptorState([1], five[3 := p3], Some([1]), Store(5, 0, [Snapshot(None, five)], [Entry(3, p3)])), AcceptOp(6, 1, v));
      3 in st.accepted && st.savedPromises == Some([1]) &&
      st.store.snapshots == [Snapshot(None, five), Snapshot(None, six)] && st.store.changes == []
  {
    var (p5, p3, p6) := (PValue(5, 1, Some(v)), PValue(3, 1, Some(v)), PValue(6, 1, Some(v)));
    var five: map<Slot, PValue> := map[5 := p5];
    var all: map<Slot, PValue> := five[3 := p3][6 := p6];
    assert all.Keys == {3, 5, 6} && MaxOf(all.Keys) == 6;
    assert Above(all.Keys, 3) == {5, 6} && Above(all.Keys, 5) == {6} && Above(all.Keys, 6) == {};
    assert Top(all, 1) == map[6 := p6] && 3 in Prune(EVERY_SLOT, all);
  }

  lemma RestoreTwo(cfg: StorageConfig, store: Store<PValue>, a: Snapshot<PValue>, b: Snapshot<PValue>)
    requires cfg.loadSnapshots >= 2 && store.snapshots == [a, b] && store.changes == []
    ensures Restore(cfg, store).Keys <= a.entries.Keys + b.entries.Keys
  {
    CombineSnoc([a], b);
    CombineSnoc([], a);
    assert [a] + [b] == [a, b] && [] + [a] == [a];
  }

  /** Why the order matters: a late accept for a low slot enters the changelog, the
      next checkpoint keeps only the newest slots and empties the changelog, and a
      restart has then forgotten an acknowledged value that was still in memory. */
  lemma OutOfOrderAcceptIsForgotten(v: Value)
    ensures var ops := [PrepareOp(1, 1), AcceptOp(5, 1, v), AcceptOp(3, 1, v), AcceptOp(6, 1, v)];
      && 3 in After(EVERY_SLOT, ops).accepted
      && 3 !in Restart(EVERY_SLOT, After(EVERY_SLOT, ops)).accepted
  {
    hide Do, Restore;
    var ops := [PrepareOp(1, 1), AcceptOp(5, 1, v), AcceptOp(3, 1, v), AcceptOp(6, 1, v)];
    assert ops[..3] == [PrepareOp(1, 1), AcceptOp(5, 1, v), AcceptOp(3, 1, v)];
    LateAccept(v);
    CheckpointDropsLate(v);
    var st := After(EVERY_SLOT, ops);
    RestoreTwo(EVERY_SLOT, Reopened(st.store), st.store.snapshots[0], st.store.snapshots[1]);
  }

  /** And why agreement is claimed above the prune threshold only: an acceptor that
      has pruned a slot acknowledges a second value for it. */
  lemma PrunedSlotTakesAnotherValue(u: Value, v: Value)
    requires u != v
    ensures var cfg := StorageConfig(true, 1, 0, 1, 1);
      var (one, first) := Accept(cfg, Fresh(), 1, 1, u);
      var two := Accept(cfg, one, 2, 1, u).0;
      first == Accepted(1, 1) && one.accepted[1].value == Some(u) &&
      Accept(cfg, two, 1, 1, v).1 == Accepted(1, 1)
  {
  }
}

module LearnerRecovery {
  import opened Prelude
  import opened PaxosTypes
  import opened Journal
  import opened LearnerCore
  import opened Windows

  /** Learning a slot and then executing, as the agent does on a new learn. */
  datatype Op = LearnAndExecute(slot: Slot, value: Value) | RestartOp

  function Restart(cfg: StorageConfig, st: LearnerState): LearnerState {
    Load(cfg, LearnerState(map[], map[], 0, Reopened(st.store)))
  }

  function Do(cfg: StorageConfig, st: LearnerState, op: Op): LearnerState
    requires cfg.Valid()
  {
    match op
    case LearnAndExecute(slot, value) => ToBeExecuted(cfg, Learn(cfg, st, slot, value).0).0
    case RestartOp => Restart(cfg, st)
  }

  function After(cfg: StorageConfig, ops: seq<Op>): LearnerState
    requires cfg.Valid()
  {
    if ops == [] then Fresh() else Do(cfg, After(cfg, ops[..|ops| - 1]), ops[|ops| - 1])
  }

  /** A restart reads the cursor off the last snapshot, if there is one. */
  predicate CursorReadable(cfg: StorageConfig, st: LearnerState) { 0 < cfg.loadSnapshots || st.store.snapshots == [] }

  predicate OldestReadable(cfg: StorageConfig, st: LearnerState) {
    st.learned.Keys != {} ==> MinOf(st.learned.Keys) in Readable(cfg, st.store)
  }

  /** New learns take the next slot.  A restart may lose low slots, but not the cursor. */
  predicate InOrder(cfg: StorageConfig, st: LearnerState, op: Op) {
    match op
    case LearnAndExecute(slot, _) => slot in st.learned || slot == st.adu + 1
    case RestartOp => CursorReadable(cfg, st)
  }

  predicate InOrderRun(cfg: StorageConfig, ops: seq<Op>)
    requires cfg.Valid()
  {
    ops == [] ||
    (InOrderRun(cfg, ops[..|ops| - 1]) && InOrder(cfg, After(cfg, ops[..|ops| - 1]), ops[|ops| - 1]))
  }

  /** A learner never starts again, so its line is the only one. */
  ghost predicate Durable(cfg: StorageConfig, st: LearnerState, line: Line<Value>)
    requires cfg.Valid()
  {
    && InStep(cfg, true, line, st.store, st.learned) && st.adu == |line.vals|
    && line.left == [] && line.early == [] && (line.c == 0 ==> st.store.snapshots == [])
  }

  lemma GapAfter(vals: seq<Value>, lo: int, adu: Slot)
    requires |vals| < TWO_TO_THE_64 && lo <= adu <= |vals|
    ensures NextAdu(Window(vals, lo, |vals|), adu) == |vals|
  {
  }

  lemma LineReach(cfg: StorageConfig, st: LearnerState, line: Line<Value>)
    requires cfg.Valid() && Durable(cfg, st, line)
    ensures line.lo <= |line.vals| && line.c <= |line.vals|
    ensures Start(line.c, cfg.snapshotInterval, Own(cfg, line, st.store)) <= line.c
  {
    hide StorageConfig.OnGrid, Window, Tiles, Tail, Positive, LastN;
  }

  /** The last loadable snapshot holds the cursor at the last checkpoint. */
  lemma SnapshotAduInStep(cfg: StorageConfig, st: LearnerState, line: Line<Value>)
    requires cfg.Valid() && 0 < cfg.maxSnapshots && Durable(cfg, st, line)
    ensures SnapshotAdu(LastN(st.store.snapshots, cfg.loadSnapshots), 0) == if CursorReadable(cfg, st) then line.c else 0
  {
    hide StorageConfig.OnGrid, Window, Tail, Positive;
    var j := Own(cfg, line, st.store);
    TilesLength(line.vals, true, line.c, cfg.snapshotInterval, j);
    if 0 < j {
      var last := TilesSnoc(line.vals, true, line.c, cfg.snapshotInterval, j);
    }
  }

  lemma RestoredLine(cfg: StorageConfig, st: LearnerState, line: Line<Value>)
    requires cfg.Valid() && Durable(cfg, st, line)
    ensures var n := |line.vals|;
      && Restore(cfg, Reopened(st.store)) == Window(line.vals, Start(line.c, cfg.snapshotInterval, Own(cfg, line, st.store)), n)
      && (forall s :: s in Readable(cfg, st.store) ==> s <= n)
  {
    hide InStep, Readable, Restore, Start, Own;
    var base := RestoreInStep(cfg, true, line, st.store, st.learned);
    ReadableIsRestored(cfg, Reopened(st.store));
    ReopenedReads(cfg, st.store);
  }

  /** Without a snapshot to read it from, the cursor falls back to nothing. */
  lemma CursorLost(vals: seq<Value>, from: nat)
    requires 0 < from <= |vals| < TWO_TO_THE_64
    ensures NextAdu(Window(vals, from, |vals|), 0) == 0
  {
  }

  lemma RestartExactly(cfg: StorageConfig, st: LearnerState, line: Line<Value>)
    requires cfg.Valid() && cfg.enabled && 0 < cfg.maxSnapshots && Durable(cfg, st, line)
    ensures var r := Restart(cfg, st);
      && (r.learned == st.learned && r.adu == st.adu <==> CursorReadable(cfg, st) && OldestReadable(cfg, st))
      && (CursorReadable(cfg, st) ==> r.adu == st.adu)
  {
    LineReach(cfg, st, line);
    SnapshotAduInStep(cfg, st, line);
    RestoresExactly(cfg, true, line, st.store, st.learned);
    RestoredLine(cfg, st, line);
    var from := Start(line.c, cfg.snapshotInterval, Own(cfg, line, st.store));
    if CursorReadable(cfg, st) {
      GapAfter(line.vals, from, line.c);
    } else {
      assert Own(cfg, line, st.store) == 0 && from == line.c;
      CursorLost(line.vals, line.c);
    }
    hide InStep, Readable, Restore, NextAdu, Window, Own, SnapshotAdu, LastN;
  }

  lemma RestartStaysDurable(cfg: StorageConfig, st: LearnerState, line: Line<Value>) returns (next: Line<Value>)
    requires cfg.Valid() && cfg.enabled && 0 < cfg.maxSnapshots && Durable(cfg, st, line) && CursorReadable(cfg, st)
    ensures Durable(cfg, Restart(cfg, st), next)
  {
    hide InStep, Readable, Restore, NextAdu, Window, Own, SnapshotAdu, LastN, Reread;
    next := Reread(cfg, line, st.store);
    RestoredLine(cfg, st, line);
    RereadKeepsStep(cfg, true, line, st.store, st.learned);
    RestartExactly(cfg, st, line);
    LineReach(cfg, st, line);
    RereadKeepsSlots(cfg, st, line);
  }

  lemma RereadKeepsSlots(cfg: StorageConfig, st: LearnerState, line: Line<Value>)
    requires cfg.Valid() && 0 < cfg.maxSnapshots && Durable(cfg, st, line) && CursorReadable(cfg, st)
    ensures var next := Reread(cfg, line, st.store);
      && |next.vals| == |line.vals| && next.left == [] && next.early == []
      && (next.c == 0 ==> st.store.snapshots == [])
  {
    hide StorageConfig.OnGrid, Window, Tiles, Tail, Positive;
    LineReach(cfg, st, line);
  }

  lemma LearnStaysDurable(cfg: StorageConfig, st: LearnerState, line: Line<Value>, slot: Slot, value: Value)
    returns (next: Line<Value>)
    requires cfg.Valid() && cfg.enabled && 0 < cfg.maxSnapshots && Durable(cfg, st, line)
    requires InOrder(cfg, st, LearnAndExecute(slot, value))
    ensures Durable(cfg, Do(cfg, st, LearnAndExecute(slot, value)), next)
  {
    hide StorageConfig.OnGrid, Tiles, Start, Tail, Checkpoint, Prune, NextAdu, Positive, Reaches, LastN;
    LineReach(cfg, st, line);
    next := line;
    if slot in st.learned {
      GapAfter(line.vals, line.lo, st.adu);
    } else {
      WindowExtends(line.vals, value, line.lo);
      GapAfter(line.vals + [value], line.lo, st.adu);
      hide InStep, Window;
      if cfg.OnGrid(slot) {
        next := Checkpointed(cfg, line, st.store, value);
        CheckpointKeepsStep(cfg, true, line, st.store, st.learned, value);
      } else {
        next := Entered(line, value);
        EntryKeepsStep(cfg, true, line, st.store, st.learned, value);
      }
    }
  }

  lemma {:induction false} RunStaysDurable(cfg: StorageConfig, ops: seq<Op>) returns (line: Line<Value>)
    requires cfg.Valid() && cfg.enabled && 0 < cfg.maxSnapshots && InOrderRun(cfg, ops)
    ensures Durable(cfg, After(cfg, ops), line)
  {
    hide InStep, Restart;
    if ops == [] {
      line := Line([], 0, 0, [], []);
      EmptyInStep<Value>(cfg, true);
    } else {
      line := RunStaysDurable(cfg, ops[..|ops| - 1]);
      var st := After(cfg, ops[..|ops| - 1]);
      match ops[|ops| - 1]
      case LearnAndExecute(slot, value) => line := LearnStaysDurable(cfg, st, line, slot, value);
      case RestartOp => line := RestartStaysDurable(cfg, st, line);
    }
  }

  /** After any in-order run, with any restarts in it that kept the cursor though they may
      have lost low slots, a restarted learner has the learned map and the cursor it had if
      and only if the cursor can be read and so can the oldest slot in memory. */
  lemma RecoveryIsExact(cfg: StorageConfig, ops: seq<Op>)
    requires cfg.Valid() && cfg.enabled && 0 < cfg.maxSnapshots && InOrderRun(cfg, ops)
    ensures var (live, restarted) := (After(cfg, ops), Restart(cfg, After(cfg, ops)));
      && live.adu == NextAdu(live.learned, live.adu)
      && (restarted.learned == live.learned && restarted.adu == live.adu <==>
            CursorReadable(cfg, live) && OldestReadable(cfg, live))
  {
    hide InOrderRun, Restart, After, Readable, NextAdu;
    var line := RunStaysDurable(cfg, ops);
    var live := After(cfg, ops);
    RestartExactly(cfg, live, line);
    LineReach(cfg, live, line);
    GapAfter(line.vals, line.lo, live.adu);
  }

  /** With at least as many snapshots loaded as kept every restart changes nothing. */
  lemma RecoveryIsANoOp(cfg: StorageConfig, ops: seq<Op>)
    requires cfg.Valid() && cfg.enabled && 0 < cfg.maxSnapshots <= cfg.loadSnapshots && InOrderRun(cfg, ops)
    ensures Restart(cfg, After(cfg, ops)).learned == After(cfg, ops).learned
    ensures Restart(cfg, After(cfg, ops)).adu == After(cfg, ops).adu
  {
    hide InOrderRun, Restart, After, Readable, InStep;
    var line := RunStaysDurable(cfg, ops);
    OldestIsReadable(cfg, true, line, After(cfg, ops).store, After(cfg, ops).learned);
    RestartExactly(cfg, After(cfg, ops), line);
  }
}
