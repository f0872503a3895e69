/** The core learner (paxos-wasm/core/learner/src/learner.rs): votes, quorums, the
    learned map and the all-decided-up-to cursor. */
module LearnerCore {
  import opened Prelude
  import opened PaxosTypes
  import opened Quorum
  import opened Journal

  type Votes = map<NodeId, Value>

  datatype LearnerState = LearnerState(
    votes: map<Slot, Votes>,
    learned: map<Slot, Value>,
    adu: Slot,
    store: Store<Value>)

  function Fresh(): LearnerState { LearnerState(map[], map[], 0, EmptyStore()) }

  function VotesFor(votes: map<Slot, Votes>, slot: Slot): Votes {
    if slot in votes then votes[slot] else map[]
  }

  function Voters(votes: Votes, v: Value): set<NodeId> { set n | n in votes && votes[n] == v }

  /** Counting walks a hash map in no particular order, so any value with a quorum
      may be the one found. */
  ghost predicate Winner(votes: Votes, quorum: nat, w: Option<Value>) {
    match w
    case None => forall v :: |Voters(votes, v)| < quorum
    case Some(v) => |Voters(votes, v)| >= quorum
  }

  function Record(st: LearnerState, slot: Slot, value: Value, sender: NodeId): LearnerState {
    st.(votes := st.votes[slot := VotesFor(st.votes, slot)[sender := value]])
  }

  function Learn(cfg: StorageConfig, st: LearnerState, slot: Slot, value: Value): (LearnerState, bool) {
    if slot in st.learned then (st, false)
    else (st.(learned := st.learned[slot := value], store := SaveChange(cfg, st.store, Entry(slot, value))), true)
  }

  /** `w` is what the quorum count finds once the vote is recorded. */
  function HandleLearn(cfg: StorageConfig, st: LearnerState, slot: Slot, value: Value, sender: NodeId, w: Option<Value>)
    : (LearnerState, bool)
  {
    var st' := Record(st, slot, value, sender);
    match w
    case None => (st', false)
    case Some(v) => Learn(cfg, st', slot, v)
  }

  /** The first slot at or after `next` that is not learned. */
  function Walk(learned: map<Slot, Value>, next: nat): (gap: nat)
    requires next <= TWO_TO_THE_64
    ensures next <= gap && gap !in learned
    ensures forall s :: next <= s < gap ==> s in learned
    decreases TWO_TO_THE_64 - next
  {
    if next in learned then Walk(learned, next + 1) else next
  }

  lemma WalkIsFirstGap(learned: map<Slot, Value>, next: nat, gap: nat)
    requires next <= gap <= TWO_TO_THE_64 && gap !in learned
    requires forall s :: next <= s < gap ==> s in learned
    ensures Walk(learned, next) == gap
  {
  }

  function NextAdu(learned: map<Slot, Value>, adu: Slot): (r: Slot)
    ensures adu <= r && (r == adu || r in learned)
  {
    var gap := Walk(learned, adu + 1);
    assert gap - 1 == adu || gap - 1 in learned;
    gap - 1
  }

  function ToBeExecuted(cfg: StorageConfig, st: LearnerState): (LearnerState, seq<LearnedEntry>)
    requires cfg.Valid()
  {
    var adu := NextAdu(st.learned, st.adu);
    if adu == st.adu then (st, [])
    else
      var entries := seq(adu - st.adu, i requires 0 <= i < adu - st.adu =>
        LearnedEntry(st.adu + 1 + i, st.learned[st.adu + 1 + i]));
      var (store, learned) := MaybeSnapshot(cfg, st.store, st.learned, adu, Some(adu));
      (st.(adu := adu, learned := learned, store := store), entries)
  }

  function SnapshotAdu(snapshots: seq<Snapshot<Value>>, adu: Slot): Slot {
    if snapshots == [] || snapshots[|snapshots| - 1].adu == None then adu
    else snapshots[|snapshots| - 1].adu.value
  }

  function Load(cfg: StorageConfig, st: LearnerState): LearnerState {
    if !cfg.enabled then st
    else
      var learned := Restore(cfg, st.store);
      var adu := SnapshotAdu(LastN(st.store.snapshots, cfg.loadSnapshots), st.adu);
      st.(learned := learned, adu := NextAdu(learned, adu))
  }

  /** With at most N voters two quorums share one, so the count has one outcome. */
  lemma WinnerUnique(acceptors: set<NodeId>, votes: Votes, v: Option<Value>, w: Option<Value>)
    requires votes.Keys <= acceptors
    requires Winner(votes, QuorumSize(|acceptors|), v) && Winner(votes, QuorumSize(|acceptors|), w)
    ensures v == w
  {
    if v.Some? && w.Some? {
      var n := MajoritiesIntersect(acceptors, Voters(votes, v.value), Voters(votes, w.value));
    }
  }

  // ----- runs of one learner ------------------------------------------------

  datatype Op =
    | LearnOp(slot: Slot, value: Value)
    | VoteOp(slot: Slot, value: Value, sender: NodeId, winner: Option<Value>)
    | ExecuteOp

  ghost predicate Legal(st: LearnerState, quorum: nat, op: Op) {
    op.VoteOp? ==>
      Winner(Record(st, op.slot, op.value, op.sender).votes[op.slot], quorum, op.winner)
  }

  function Do(cfg: StorageConfig, st: LearnerState, op: Op): (LearnerState, seq<LearnedEntry>)
    requires cfg.Valid()
  {
    match op
    case LearnOp(slot, value) => (Learn(cfg, st, slot, value).0, [])
    case VoteOp(slot, value, sender, winner) => (HandleLearn(cfg, st, slot, value, sender, winner).0, [])
    case ExecuteOp => ToBeExecuted(cfg, st)
  }

  /** The state after a run, and all Execute batches in order. */
  function RunOf(cfg: StorageConfig, ops: seq<Op>): (LearnerState, seq<LearnedEntry>)
    requires cfg.Valid()
  {
    if ops == [] then (Fresh(), [])
    else
      var (st, log) := RunOf(cfg, ops[..|ops| - 1]);
      var (st', batch) := Do(cfg, st, ops[|ops| - 1]);
      (st', log + batch)
  }

  ghost predicate LegalRun(cfg: StorageConfig, quorum: nat, ops: seq<Op>)
    requires cfg.Valid()
  {
    ops != [] ==>
      var init := ops[..|ops| - 1];
      LegalRun(cfg, quorum, init) && Legal(RunOf(cfg, init).0, quorum, ops[|ops| - 1])
  }

  /** One batch continues where the cursor stood, moves the cursor over exactly its
      own slots, takes its values from the learned map and leaves a gap next. */
  lemma ToBeExecutedFacts(cfg: StorageConfig, st: LearnerState)
    requires cfg.Valid()
    ensures var (st', batch) := ToBeExecuted(cfg, st);
      && st'.adu == st.adu + |batch|
      && (forall i :: 0 <= i < |batch| ==>
            batch[i].slot == st.adu + 1 + i && batch[i].slot in st.learned && batch[i].value == st.learned[batch[i].slot])
      && st'.adu + 1 !in st'.learned
      && st'.votes == st.votes
      && (forall s :: s in st'.learned ==> s in st.learned && st'.learned[s] == st.learned[s])
      && (!cfg.enabled ==> st'.learned == st.learned)
  {
  }

  /** Exactly once, in order: whatever is voted, learned directly, pruned and
      learned again, the executed slots are 1, 2, … up to the cursor, and executing
      always stops at a slot that is not learned. */
  lemma {:induction false} ExecutesEachSlotOnceInOrder(cfg: StorageConfig, ops: seq<Op>)
    requires cfg.Valid()
    ensures var (st, log) := RunOf(cfg, ops);
      && |log| == st.adu
      && (forall i :: 0 <= i < |log| ==> log[i].slot == i + 1)
      && (ops != [] && ops[|ops| - 1].ExecuteOp? ==> st.adu + 1 !in st.learned)
  {
    if ops != [] {
      var (st, log) := RunOf(cfg, ops[..|ops| - 1]);
      ExecutesEachSlotOnceInOrder(cfg, ops[..|ops| - 1]);
      if ops[|ops| - 1].ExecuteOp? {
        ToBeExecutedFacts(cfg, st);
      }
    }
  }

  // ----- the learned map as a count of distinct voters ----------------------

  ghost predicate VotesOnly(ops: seq<Op>) { forall i :: 0 <= i < |ops| ==> !ops[i].LearnOp? }

  ghost predicate ConstantVotes(ops: seq<Op>) {
    forall i, j | 0 <= i < |ops| && 0 <= j < |ops| && ops[i].VoteOp? && ops[j].VoteOp? ::
      ops[i].sender == ops[j].sender && ops[i].slot == ops[j].slot ==> ops[i].value == ops[j].value
  }

  ghost predicate SentBy(ops: seq<Op>, acceptors: set<NodeId>) {
    forall i :: 0 <= i < |ops| && ops[i].VoteOp? ==> ops[i].sender in acceptors
  }

  /** The distinct senders that have delivered a vote for `v` in `slot`. */
  ghost function Backers(ops: seq<Op>, slot: Slot, v: Value): set<NodeId> {
    set i | 0 <= i < |ops| && ops[i].VoteOp? && ops[i].slot == slot && ops[i].value == v :: ops[i].sender
  }

  /** Every vote on file belongs to a backer of its value. */
  ghost predicate Filed(votes: Votes, ops: seq<Op>, slot: Slot) {
    forall n :: n in votes ==> n in Backers(ops, slot, votes[n])
  }

  lemma ShorterRun(ops: seq<Op>)
    requires ops != []
    ensures var init := ops[..|ops| - 1];
      && (VotesOnly(ops) ==> VotesOnly(init)) && (ConstantVotes(ops) ==> ConstantVotes(init))
      && forall acceptors :: SentBy(ops, acceptors) ==> SentBy(init, acceptors)
  {
  }

  lemma VotesStep(cfg: StorageConfig, st: LearnerState, op: Op, slot: Slot)
    requires cfg.Valid()
    ensures VotesFor(Do(cfg, st, op).0.votes, slot) ==
      if op.VoteOp? && op.slot == slot then VotesFor(st.votes, slot)[op.sender := op.value] else VotesFor(st.votes, slot)
  {
  }

  lemma FiledStep(ops: seq<Op>, before: Votes, slot: Slot)
    requires ops != [] && Filed(before, ops[..|ops| - 1], slot)
    ensures var op := ops[|ops| - 1];
      Filed(if op.VoteOp? && op.slot == slot then before[op.sender := op.value] else before, ops, slot)
  {
  }

  /** A sender votes one way for a slot, so no earlier vote of his is overwritten by
      another value. */
  lemma RepeatsAgree(ops: seq<Op>, before: Votes, slot: Slot)
    requires ops != [] && ConstantVotes(ops) && Filed(before, ops[..|ops| - 1], slot)
    ensures var op := ops[|ops| - 1];
      op.VoteOp? && op.slot == slot && op.sender in before ==> before[op.sender] == op.value
  {
  }

  lemma {:induction false} VotesAreBackers(cfg: StorageConfig, ops: seq<Op>, slot: Slot, v: Value)
    requires cfg.Valid() && !cfg.enabled && VotesOnly(ops) && ConstantVotes(ops)
    ensures Voters(VotesFor(RunOf(cfg, ops).0.votes, slot), v) == Backers(ops, slot, v)
    ensures Filed(VotesFor(RunOf(cfg, ops).0.votes, slot), ops, slot)
  {
    if ops != [] {
      var init := ops[..|ops| - 1];
      var op := ops[|ops| - 1];
      ShorterRun(ops);
      VotesAreBackers(cfg, init, slot, v);
      var before := VotesFor(RunOf(cfg, init).0.votes, slot);
      hide Backers, Filed, ConstantVotes, Do, VotesFor;
      VotesStep(cfg, RunOf(cfg, init).0, op, slot);
      BackersSnoc(ops, slot, v);
      FiledStep(ops, before, slot);
      RepeatsAgree(ops, before, slot);
    }
  }

  lemma BackersSnoc(ops: seq<Op>, slot: Slot, v: Value)
    requires ops != []
    ensures var init := ops[..|ops| - 1]; var op := ops[|ops| - 1];
      Backers(ops, slot, v) ==
      if op.VoteOp? && op.slot == slot && op.value == v then Backers(init, slot, v) + {op.sender} else Backers(init, slot, v)
  {
  }

  function LearnedAt(st: LearnerState, slot: Slot): Option<Value> {
    if slot in st.learned then Some(st.learned[slot]) else None
  }

  /** A slot is learned once, from the first quorum found for it or the first direct learn. */
  lemma LearnedStep(cfg: StorageConfig, st: LearnerState, op: Op, slot: Slot)
    requires cfg.Valid() && (op.ExecuteOp? ==> !cfg.enabled)
    ensures LearnedAt(Do(cfg, st, op).0, slot) ==
      if LearnedAt(st, slot).Some? || op.ExecuteOp? || op.slot != slot then LearnedAt(st, slot)
      else if op.VoteOp? then op.winner else Some(op.value)
  {
  }

  /** With storage, a value learned for the first time is journaled, and nothing else is. */
  lemma LearnIsJournaled(cfg: StorageConfig, st: LearnerState, op: Op)
    requires cfg.Valid() && !op.ExecuteOp?
    ensures var (now, st') := (if op.VoteOp? then op.winner else Some(op.value), Do(cfg, st, op).0);
      && st'.adu == st.adu
      && st'.store == if cfg.enabled && now.Some? && op.slot !in st.learned
                      then st.store.(changes := st.store.changes + [Entry(op.slot, now.value)]) else st.store
  {
  }

  /** Startup without storage does nothing; with it, the learned map is the restored one and
      the cursor stands before its first gap, at or after the last loaded snapshot's. */
  lemma LoadIsExact(cfg: StorageConfig, st: LearnerState)
    requires cfg.Valid()
    ensures var st' := Load(cfg, st);
      && (!cfg.enabled ==> st' == st)
      && (cfg.enabled ==>
            var from := SnapshotAdu(LastN(st.store.snapshots, cfg.loadSnapshots), st.adu);
            && st'.learned == Restore(cfg, st.store) && st'.votes == st.votes && st'.store == st.store
            && from <= st'.adu && st'.adu + 1 !in st'.learned && forall s :: from < s <= st'.adu ==> s in st'.learned)
  {
  }

  /** The last vote the sender cast for the slot. */
  function LastVote(ops: seq<Op>, slot: Slot, sender: NodeId): Option<Value> {
    if ops == [] then None
    else
      var op := ops[|ops| - 1];
      if op.VoteOp? && op.slot == slot && op.sender == sender then Some(op.value)
      else LastVote(ops[..|ops| - 1], slot, sender)
  }

  /** In every run each sender's last vote for a slot is the one on file, whatever was
      learned, executed or pruned. */
  lemma {:induction false} VotesAreLast(cfg: StorageConfig, ops: seq<Op>, slot: Slot, sender: NodeId)
    requires cfg.Valid()
    ensures var votes := VotesFor(RunOf(cfg, ops).0.votes, slot);
      (if sender in votes then Some(votes[sender]) else None) == LastVote(ops, slot, sender)
  {
    if ops != [] {
      var (init, op) := (ops[..|ops| - 1], ops[|ops| - 1]);
      VotesAreLast(cfg, init, slot, sender);
      hide Do, VotesFor;
      VotesStep(cfg, RunOf(cfg, init).0, op, slot);
    }
  }

  /** The value found for a slot has a quorum of backers, and if none is found no value has. */
  lemma WinnerIsBacked(cfg: StorageConfig, quorum: nat, ops: seq<Op>, slot: Slot, v: Value)
    requires cfg.Valid() && !cfg.enabled && VotesOnly(ops) && ConstantVotes(ops) && ops != []
    requires var op := ops[|ops| - 1];
      op.VoteOp? && op.slot == slot && Legal(RunOf(cfg, ops[..|ops| - 1]).0, quorum, op)
    ensures match ops[|ops| - 1].winner
      case None => |Backers(ops, slot, v)| < quorum
      case Some(u) => |Backers(ops, slot, u)| >= quorum
  {
    hide Backers, ConstantVotes, Filed;
    var (op, st) := (ops[|ops| - 1], RunOf(cfg, ops[..|ops| - 1]).0);
    VotesStep(cfg, st, op, slot);
    VotesAreBackers(cfg, ops, slot, match op.winner case None => v case Some(u) => u);
  }

  lemma BackersGrow(ops: seq<Op>, slot: Slot, v: Value)
    requires ops != []
    ensures |Backers(ops[..|ops| - 1], slot, v)| <= |Backers(ops, slot, v)|
    ensures !(ops[|ops| - 1].VoteOp? && ops[|ops| - 1].slot == slot) ==> Backers(ops, slot, v) == Backers(ops[..|ops| - 1], slot, v)
  {
    hide Backers;
    BackersSnoc(ops, slot, v);
    SubsetCardinality(Backers(ops[..|ops| - 1], slot, v), Backers(ops, slot, v));
  }

  /** In any delivery order, with any repetition, interleaved with any executions,
      and whichever value the hash map offers first: a value is learned for a slot
      exactly when a quorum of distinct acceptors has delivered it. */
  lemma {:induction false} LearnedIffQuorum(cfg: StorageConfig, acceptors: set<NodeId>, ops: seq<Op>, slot: Slot, v: Value)
    requires cfg.Valid() && !cfg.enabled && VotesOnly(ops) && ConstantVotes(ops) && SentBy(ops, acceptors)
    requires LegalRun(cfg, QuorumSize(|acceptors|), ops)
    ensures LearnedAt(RunOf(cfg, ops).0, slot) == Some(v) <==> |Backers(ops, slot, v)| >= QuorumSize(|acceptors|)
  {
    if ops == [] {
      assert Backers(ops, slot, v) == {};
    } else {
      var (init, op, quorum) := (ops[..|ops| - 1], ops[|ops| - 1], QuorumSize(|acceptors|));
      var st := RunOf(cfg, init).0;
      ShorterRun(ops);
      assert op == ops[|ops| - 1] && !op.LearnOp?;
      hide Backers, ConstantVotes, SentBy, Do, Legal, LearnedAt, QuorumSize, VotesOnly;
      LearnedIffQuorum(cfg, acceptors, init, slot, v);
      LearnedStep(cfg, st, op, slot);
      BackersGrow(ops, slot, v);
      if op.VoteOp? && op.slot == slot {
        WinnerIsBacked(cfg, quorum, ops, slot, v);
        var now := if LearnedAt(st, slot) == None then op.winner else LearnedAt(st, slot);
        if LearnedAt(st, slot).Some? {
          LearnedIffQuorum(cfg, acceptors, init, slot, now.value);
          BackersGrow(ops, slot, now.value);
        }
        if now.Some? {
          OneQuorum(acceptors, ops, slot, now.value, v);
        }
      }
    }
  }

  lemma OneQuorum(acceptors: set<NodeId>, ops: seq<Op>, slot: Slot, u: Value, v: Value)
    requires ConstantVotes(ops) && SentBy(ops, acceptors)
    requires |Backers(ops, slot, u)| >= QuorumSize(|acceptors|)
    ensures |Backers(ops, slot, v)| >= QuorumSize(|acceptors|) ==> u == v
  {
    if |Backers(ops, slot, v)| >= QuorumSize(|acceptors|) {
      var n := MajoritiesIntersect(acceptors, Backers(ops, slot, u), Backers(ops, slot, v));
    }
  }

  // ----- the object ----------------------------------------------------------

  /** Startup advances the cursor by a scan over the sorted keys, execution by point
      lookups.  Both stop at the same first gap, for every map and cursor. */
  method ScanAdu(learned: map<Slot, Value>, adu: Slot) returns (r: Slot)
    ensures r == NextAdu(learned, adu)
  {
    var keys := OrderedKeys(learned.Keys);
    var i := 0;
    while i < |keys| && keys[i] <= adu
      invariant 0 <= i <= |keys|
      invariant forall j :: 0 <= j < i ==> keys[j] <= adu
    {
      i := i + 1;
    }
    var next: nat := adu + 1;
    while i < |keys| && keys[i] == next
      invariant 0 <= i <= |keys| && adu + 1 <= next
      invariant forall j :: 0 <= j < i ==> keys[j] < next
      invariant i < |keys| ==> next <= keys[i]
      invariant forall s :: adu + 1 <= s < next ==> s in learned
      invariant next - 1 == adu || next - 1 in learned
    {
      assert keys[i] in keys;
      next := next + 1;
      i := i + 1;
    }
    if next in learned {
      var j :| 0 <= j < |keys| && keys[j] == next;
    }
    WalkIsFirstGap(learned, adu + 1, next);
    r := next - 1;
  }

  class MyLearner {
    const cfg: StorageConfig
    const numAcceptors: u64
    var votes: map<Slot, Votes>
    var learned: map<Slot, Value>
    var adu: Slot
    const storage: StorageHelper<Value>

    ghost predicate Valid()
      reads this
    {
      cfg.Valid() && storage.cfg == cfg
    }

    ghost function State(): LearnerState
      reads this, storage
    {
      LearnerState(votes, learned, adu, storage.State())
    }

    constructor (cfg: StorageConfig, numAcceptors: u64, snapshots: seq<Snapshot<Value>>, changes: seq<Entry<Value>>)
      requires cfg.Valid()
      ensures Valid() && this.cfg == cfg && this.numAcceptors == numAcceptors && fresh(storage)
      ensures State() == LearnerState(map[], map[], 0, Store(0, 0, snapshots, changes))
    {
      this.cfg, this.numAcceptors := cfg, numAcceptors;
      votes, learned, adu := map[], map[], 0;
      storage := new StorageHelper(cfg, snapshots, changes);
    }

    method CheckQuorum(slot: Slot) returns (w: Option<Value>)
      ensures Winner(VotesFor(votes, slot), QuorumSize(numAcceptors), w)
    {
      var quorum := QuorumSize(numAcceptors);
      var slotVotes := VotesFor(votes, slot);
      if |slotVotes| < quorum {
        forall v ensures |Voters(slotVotes, v)| < quorum {
          SubsetCardinality(Voters(slotVotes, v), slotVotes.Keys);
        }
        return None;
      }
      var counts := CountVotes(slotVotes);
      var values := counts.Keys;
      while values != {}
        invariant values <= counts.Keys
        invariant forall v :: v in counts && v !in values ==> |Voters(slotVotes, v)| < quorum
        decreases |values|
      {
        var v :| v in values;
        if counts[v] >= quorum {
          return Some(v);
        }
        values := values - {v};
      }
      return None;
    }

    method AddLearned(slot: Slot, value: Value) returns (isNew: bool)
      requires Valid()
      modifies this`learned, storage
      ensures Valid() && (State(), isNew) == Learn(cfg, old(State()), slot, value)
    {
      if slot in learned {
        return false;
      }
      learned := learned[slot := value];
      storage.Save(Entry(slot, value));
      return true;
    }

    method HandleVote(slot: Slot, value: Value, sender: NodeId) returns (isNew: bool)
      requires Valid()
      modifies this`votes, this`learned, storage
      ensures Valid()
      ensures exists w ::
        && Winner(Record(old(State()), slot, value, sender).votes[slot], QuorumSize(numAcceptors), w)
        && (State(), isNew) == HandleLearn(cfg, old(State()), slot, value, sender, w)
    {
      votes := votes[slot := VotesFor(votes, slot)[sender := value]];
      var w := CheckQuorum(slot);
      assert Winner(Record(old(State()), slot, value, sender).votes[slot], QuorumSize(numAcceptors), w);
      if w.Some? {
        isNew := AddLearned(slot, w.value);
      } else {
        isNew := false;
      }
    }

    method Executable() returns (out: seq<LearnedEntry>)
      requires Valid()
      modifies this`learned, this`adu, storage
      ensures Valid() && (State(), out) == ToBeExecuted(cfg, old(State()))
    {
      out := [];
      var next: nat := adu + 1;
      while next in learned
        invariant adu + 1 <= next <= TWO_TO_THE_64
        invariant forall s :: adu + 1 <= s < next ==> s in learned
        invariant |out| == next - adu - 1
        invariant forall i :: 0 <= i < |out| ==> out[i] == LearnedEntry(adu + 1 + i, learned[adu + 1 + i])
        invariant next - 1 == adu || next - 1 in learned
        decreases TWO_TO_THE_64 - next
      {
        out := out + [LearnedEntry(next, learned[next])];
        next := next + 1;
      }
      WalkIsFirstGap(learned, adu + 1, next);
      if out == [] {
        return;
      }
      adu := next - 1;
      learned := storage.Maybe(adu, learned, Some(adu));
      assert out == ToBeExecuted(cfg, old(State())).1;
    }

    method LoadState()
      requires Valid()
      modifies this`learned, this`adu
      ensures Valid() && State() == Load(cfg, old(State()))
    {
      if !cfg.enabled {
        return;
      }
      learned := storage.LoadEntries();
      var loaded := LastN(storage.snapshots, cfg.loadSnapshots);
      if loaded != [] && loaded[|loaded| - 1].adu.Some? {
        adu := loaded[|loaded| - 1].adu.value;
      }
      adu := ScanAdu(learned, adu);
    }
  }

  method CountVotes(votes: Votes) returns (counts: map<Value, nat>)
    ensures forall v :: v in counts ==> counts[v] == |Voters(votes, v)|
    ensures forall v :: v !in counts ==> Voters(votes, v) == {}
  {
    hide Voters, Counted;
    counts := map[];
    var rest := votes.Keys;
    NothingCounted(votes);
    while rest != {}
      invariant rest <= votes.Keys && Counted(votes, counts, rest)
      decreases |rest|
    {
      var n :| n in rest;
      var v := votes[n];
      CountOne(votes, counts, rest, n);
      counts := counts[v := (if v in counts then counts[v] else 0) + 1];
      rest := rest - {n};
    }
    AllCounted(votes, counts);
  }

  lemma NothingCounted(votes: Votes)
    ensures Counted(votes, map[], votes.Keys)
  {
  }

  lemma AllCounted(votes: Votes, counts: map<Value, nat>)
    requires Counted(votes, counts, {})
    ensures forall v :: v in counts ==> counts[v] == |Voters(votes, v)|
    ensures forall v :: v !in counts ==> Voters(votes, v) == {}
  {
    hide Voters;
    assert forall v :: Voters(votes, v) - {} == Voters(votes, v);
  }

  /** The counts of the votes outside `rest`. */
  ghost predicate Counted(votes: Votes, counts: map<Value, nat>, rest: set<NodeId>) {
    && (forall v :: v in counts ==> counts[v] == |Voters(votes, v) - rest|)
    && (forall v :: v !in counts ==> Voters(votes, v) - rest == {})
  }

  lemma CountOne(votes: Votes, counts: map<Value, nat>, rest: set<NodeId>, n: NodeId)
    requires n in rest && n in votes && Counted(votes, counts, rest)
    ensures var v := votes[n];
      Counted(votes, counts[v := (if v in counts then counts[v] else 0) + 1], rest - {n})
  {
    hide Voters;
    var v := votes[n];
    var more := counts[v := (if v in counts then counts[v] else 0) + 1];
    forall u: Value
      ensures u in more ==> more[u] == |Voters(votes, u) - (rest - {n})|
      ensures u !in more ==> Voters(votes, u) - (rest - {n}) == {}
    {
      OneMoreVoter(votes, u, rest, n);
    }
  }

  lemma OneMoreVoter(votes: Votes, u: Value, rest: set<NodeId>, n: NodeId)
    requires n in rest && n in votes
    ensures var (now, before) := (Voters(votes, u) - (rest - {n}), Voters(votes, u) - rest);
      now == before + (if u == votes[n] then {n} else {}) && |now| == |before| + if u == votes[n] then 1 else 0
  {
  }
}
