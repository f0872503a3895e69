/** From the bytes on disk back to memory: the requests the storage helpers send, the
    files they leave, and what loading, decoding and replaying those files gives. */
module DiskRecovery {
  import opened Prelude
  import opened PaxosTypes
  import opened Bytes
  import opened Journal
  import opened AcceptorCore
  import opened LearnerCore
  import opened Windows
  import H = HostStorage
  import A = AcceptorRecovery
  import L = LearnerRecovery

  /** The bincode encoders and decoders. */
  datatype Codec<!V> = Codec(
    entry: Entry<V> -> Blob, entryBack: Blob -> Option<Entry<V>>,
    snapshot: Snapshot<V> -> Blob, snapshotBack: Blob -> Option<Snapshot<V>>)

  ghost predicate Lossless<V(!new)>(codec: Codec<V>) {
    && (forall e :: codec.entryBack(codec.entry(e)) == Some(e))
    && (forall s :: codec.snapshotBack(codec.snapshot(s)) == Some(s))
  }

  function DecodeAll<T>(back: Blob -> Option<T>, blobs: seq<Blob>): Result<seq<T>> {
    if blobs == [] then Ok([])
    else
      match DecodeAll(back, blobs[..|blobs| - 1])
      case Err(e) => Err(e)
      case Ok(items) =>
        match back(blobs[|blobs| - 1])
        case None => Err("bincode decode")
        case Some(item) => Ok(items + [item])
  }

  lemma {:induction false} DecodesBack<T(!new)>(enc: T -> Blob, back: Blob -> Option<T>, items: seq<T>)
    requires forall x :: back(enc(x)) == Some(x)
    ensures DecodeAll(back, Map(enc, items)) == Ok(items)
  {
    if items != [] {
      var (init, last) := (items[..|items| - 1], items[|items| - 1]);
      DecodesBack(enc, back, init);
      assert Map(enc, items)[..|items| - 1] == Map(enc, init);
      assert items == init + [last];
    }
  }

  /** The snapshots and the changes a load reads off the disk. */
  function LoadJournal<V>(cfg: StorageConfig, codec: Codec<V>, disk: H.Disk): Result<(seq<Snapshot<V>>, seq<Entry<V>>)> {
    match H.Load(disk, cfg.loadSnapshots)
    case Err(e) => Err(e)
    case Ok((snapshots, changes)) =>
      match DecodeAll(codec.snapshotBack, snapshots)
      case Err(e) => Err(e)
      case Ok(s) =>
        match DecodeAll(codec.entryBack, changes)
        case Err(e) => Err(e)
        case Ok(c) => Ok((s, c))
  }

  // ----- what the helpers ask of the disk --------------------------------------------------

  function SaveAsks<V>(cfg: StorageConfig, codec: Codec<V>, e: Entry<V>): seq<H.Request> {
    if cfg.enabled then [H.SaveChange(codec.entry(e))] else []
  }

  function SnapshotAsks<V>(cfg: StorageConfig, codec: Codec<V>, store: Store<V>, live: map<Slot, V>, slot: Slot,
                           adu: Option<Slot>, stamp: H.Stamp): seq<H.Request>
    requires cfg.Valid()
  {
    if SnapshotDue(cfg, store, slot)
    then [H.Checkpoint(codec.snapshot(Snapshot(adu, Top(live, cfg.snapshotInterval))), stamp, cfg.maxSnapshots)]
    else []
  }

  /** The requests so far have put exactly this journal on disk. */
  ghost predicate OnDisk<V(!new)>(codec: Codec<V>, reqs: seq<H.Request>, store: Store<V>, max: u64) {
    && LastN(H.Taken(reqs), max) == Map(codec.snapshot, store.snapshots)
    && H.Since(reqs) == Map(codec.entry, store.changes)
  }

  lemma SaveOnDisk<V(!new)>(cfg: StorageConfig, codec: Codec<V>, reqs: seq<H.Request>, store: Store<V>, e: Entry<V>)
    requires OnDisk(codec, reqs, store, cfg.maxSnapshots)
    ensures OnDisk(codec, reqs + SaveAsks(cfg, codec, e), SaveChange(cfg, store, e), cfg.maxSnapshots)
  {
    if cfg.enabled {
      assert (reqs + [H.SaveChange(codec.entry(e))])[..|reqs|] == reqs;
      assert Map(codec.entry, store.changes + [e]) == Map(codec.entry, store.changes) + [codec.entry(e)];
    } else {
      assert reqs + [] == reqs;
    }
  }

  lemma SnapshotOnDisk<V(!new)>(cfg: StorageConfig, codec: Codec<V>, reqs: seq<H.Request>, store: Store<V>,
                                live: map<Slot, V>, slot: Slot, adu: Option<Slot>, stamp: H.Stamp)
    requires cfg.Valid() && OnDisk(codec, reqs, store, cfg.maxSnapshots)
    ensures OnDisk(codec, reqs + SnapshotAsks(cfg, codec, store, live, slot, adu, stamp),
                   MaybeSnapshot(cfg, store, live, slot, adu).0, cfg.maxSnapshots)
  {
    hide Top, Prune, StorageConfig.OnGrid, Threshold;
    if SnapshotDue(cfg, store, slot) {
      var snapshot := Snapshot(adu, Top(live, cfg.snapshotInterval));
      var blob := codec.snapshot(snapshot);
      assert (reqs + [H.Checkpoint(blob, stamp, cfg.maxSnapshots)])[..|reqs|] == reqs;
      RotationOnDisk(codec.snapshot, H.Taken(reqs), store.snapshots, snapshot, cfg.maxSnapshots);
    } else {
      assert reqs + [] == reqs;
    }
  }

  lemma RotationOnDisk<T>(enc: T -> Blob, taken: seq<Blob>, kept: seq<T>, x: T, max: u64)
    requires LastN(taken, max) == Map(enc, kept)
    ensures LastN(taken + [enc(x)], max) == Map(enc, LastN(kept + [x], max))
  {
    LastNSnoc(taken, enc(x), max);
    assert Map(enc, kept + [x]) == Map(enc, kept) + [enc(x)];
    assert LastN(Map(enc, kept + [x]), max) == Map(enc, LastN(kept + [x], max));
  }

  /** Loading reads back the newest snapshots and all changes of that journal. */
  lemma JournalReadsBack<V(!new)>(cfg: StorageConfig, codec: Codec<V>, reqs: seq<H.Request>, store: Store<V>)
    requires Lossless(codec) && H.WellUsed(reqs, cfg.maxSnapshots) && OnDisk(codec, reqs, store, cfg.maxSnapshots)
    ensures LoadJournal(cfg, codec, H.After(reqs)) == Ok((LastN(store.snapshots, cfg.loadSnapshots), store.changes))
  {
    hide H.After, H.Load, H.Taken, H.Since, H.WellUsed, LastN, DecodeAll, Map;
    H.DiskLogRoundTrip(reqs, cfg.maxSnapshots, cfg.loadSnapshots);
    LastNTwice(H.Taken(reqs), cfg.maxSnapshots, cfg.loadSnapshots);
    LastNOfMap(codec.snapshot, store.snapshots, cfg.loadSnapshots);
    DecodesBack(codec.snapshot, codec.snapshotBack, LastN(store.snapshots, cfg.loadSnapshots));
    DecodesBack(codec.entry, codec.entryBack, store.changes);
  }

  lemma LastNOfMap<X, Y>(f: X -> Y, s: seq<X>, n: nat)
    ensures LastN(Map(f, s), n) == Map(f, LastN(s, n))
  {
  }

  // ----- the acceptor -----------------------------------------------------------------------

  datatype PromiseCodec = PromiseCodec(write: seq<Ballot> -> Blob, read: Blob -> Option<seq<Ballot>>) {
    ghost predicate Lossless() { forall ps :: read(write(ps)) == Some(ps) }
  }

  function AcceptorAsks(cfg: StorageConfig, pc: PromiseCodec, codec: Codec<PValue>, st: AcceptorState, op: A.Op, stamp: H.Stamp)
    : seq<H.Request>
    requires cfg.Valid()
  {
    match op
    case PrepareOp(_, ballot) =>
      if cfg.enabled && HighestPromised(st.promises) < ballot then [H.SaveState(pc.write(st.promises + [ballot]))] else []
    case AcceptOp(slot, ballot, value) =>
      if ballot < HighestPromised(st.promises) || slot in st.accepted then []
      else
        var e := Entry(slot, PValue(slot, ballot, Some(value)));
        SaveAsks(cfg, codec, e) +
        SnapshotAsks(cfg, codec, SaveChange(cfg, st.store, e), st.accepted[slot := e.item], slot, None, stamp)
    case RestartOp => []
  }

  /** All requests of a run; `stamps` is the clock, read once an operation. */
  function AcceptorTrace(cfg: StorageConfig, pc: PromiseCodec, codec: Codec<PValue>, ops: seq<A.Op>, stamps: nat -> H.Stamp)
    : seq<H.Request>
    requires cfg.Valid()
  {
    if ops == [] then []
    else
      var init := ops[..|ops| - 1];
      AcceptorTrace(cfg, pc, codec, init, stamps) +
      AcceptorAsks(cfg, pc, codec, A.After(cfg, init), ops[|ops| - 1], stamps(|init|))
  }

  function LoadAcceptor(cfg: StorageConfig, pc: PromiseCodec, codec: Codec<PValue>, disk: H.Disk)
    : Result<(seq<Ballot>, map<Slot, PValue>)>
  {
    match disk.current
    case None => Err("storage.load_state promises: No such file or directory (os error 2)")
    case Some(blob) =>
      match pc.read(blob)
      case None => Err("bincode decode promises")
      case Some(promises) =>
        match LoadJournal(cfg, codec, disk)
        case Err(e) => Err(e)
        case Ok((snapshots, changes)) => Ok((promises, Replay(Combine(snapshots), changes)))
  }

  ghost predicate AcceptorOnDisk(cfg: StorageConfig, pc: PromiseCodec, codec: Codec<PValue>, reqs: seq<H.Request>, st: AcceptorState) {
    && OnDisk(codec, reqs, st.store, cfg.maxSnapshots)
    && H.After(reqs).current == match st.savedPromises case None => None case Some(ps) => Some(pc.write(ps))
  }

  lemma CurrentKept(reqs: seq<H.Request>, more: seq<H.Request>)
    requires forall i :: 0 <= i < |more| ==> !more[i].SaveState?
    ensures H.After(reqs + more).current == H.After(reqs).current
    decreases |more|
  {
    if more == [] {
      assert reqs + more == reqs;
    } else {
      var init := more[..|more| - 1];
      CurrentKept(reqs, init);
      assert (reqs + more)[..|reqs + more| - 1] == reqs + init;
    }
  }

  lemma AcceptOnDisk(cfg: StorageConfig, pc: PromiseCodec, codec: Codec<PValue>, reqs: seq<H.Request>, st: AcceptorState,
                     slot: Slot, ballot: Ballot, value: Value, stamp: H.Stamp)
    requires cfg.Valid() && AcceptorOnDisk(cfg, pc, codec, reqs, st)
    ensures var op := A.AcceptOp(slot, ballot, value);
      AcceptorOnDisk(cfg, pc, codec, reqs + AcceptorAsks(cfg, pc, codec, st, op, stamp), A.Do(cfg, st, op))
  {
    hide OnDisk, H.After, MaybeSnapshot, SnapshotDue;
    var op := A.AcceptOp(slot, ballot, value);
    var asks := AcceptorAsks(cfg, pc, codec, st, op, stamp);
    if ballot < HighestPromised(st.promises) || slot in st.accepted {
      assert reqs + asks == reqs;
    } else {
      var e := Entry(slot, PValue(slot, ballot, Some(value)));
      var (live, saved) := (st.accepted[slot := e.item], SaveAsks(cfg, codec, e));
      var store := SaveChange(cfg, st.store, e);
      SaveOnDisk(cfg, codec, reqs, st.store, e);
      SnapshotOnDisk(cfg, codec, reqs + saved, store, live, slot, None, stamp);
      ConcatAssociative(reqs, saved, SnapshotAsks(cfg, codec, store, live, slot, None, stamp));
      CurrentKept(reqs, asks);
    }
  }

  lemma PrepareOnDisk(cfg: StorageConfig, pc: PromiseCodec, codec: Codec<PValue>, reqs: seq<H.Request>, st: AcceptorState,
                      slot: Slot, ballot: Ballot, stamp: H.Stamp)
    requires cfg.Valid() && AcceptorOnDisk(cfg, pc, codec, reqs, st)
    ensures var op := A.PrepareOp(slot, ballot);
      AcceptorOnDisk(cfg, pc, codec, reqs + AcceptorAsks(cfg, pc, codec, st, op, stamp), A.Do(cfg, st, op))
  {
    hide CollectFrom;
    var asks := AcceptorAsks(cfg, pc, codec, st, A.PrepareOp(slot, ballot), stamp);
    if asks == [] {
      assert reqs + asks == reqs;
    } else {
      assert (reqs + asks)[..|reqs|] == reqs;
    }
  }

  /** After any run, whatever the order of its accepts, the files hold the promises
      last saved and the journal of the model. */
  lemma {:induction false} AcceptorRunOnDisk(cfg: StorageConfig, pc: PromiseCodec, codec: Codec<PValue>, ops: seq<A.Op>, stamps: nat -> H.Stamp)
    requires cfg.Valid()
    ensures AcceptorOnDisk(cfg, pc, codec, AcceptorTrace(cfg, pc, codec, ops, stamps), A.After(cfg, ops))
  {
    if ops != [] {
      var (init, op) := (ops[..|ops| - 1], ops[|ops| - 1]);
      AcceptorRunOnDisk(cfg, pc, codec, init, stamps);
      var (reqs, st) := (AcceptorTrace(cfg, pc, codec, init, stamps), A.After(cfg, init));
      match op
      case PrepareOp(slot, ballot) => PrepareOnDisk(cfg, pc, codec, reqs, st, slot, ballot, stamps(|init|));
      case AcceptOp(slot, ballot, value) => AcceptOnDisk(cfg, pc, codec, reqs, st, slot, ballot, value, stamps(|init|));
      case RestartOp =>
        assert reqs + [] == reqs;
    }
  }

  /** Recovery from the bytes.  After any in-order run, with any restarts in it that brought
      no forgotten slot back, loading the files gives the promises and the accepted map that
      are in memory if and only if a promise was ever saved and the readable slots end where
      memory ends and include the slot where memory begins. */
  lemma AcceptorRecoversFromDisk(cfg: StorageConfig, pc: PromiseCodec, codec: Codec<PValue>, ops: seq<A.Op>, stamps: nat -> H.Stamp)
    requires cfg.Valid() && cfg.enabled && 0 < cfg.maxSnapshots && A.InOrderRun(cfg, ops)
    requires pc.Lossless() && Lossless(codec) && H.WellUsed(AcceptorTrace(cfg, pc, codec, ops, stamps), cfg.maxSnapshots)
    ensures var (live, disk) := (A.After(cfg, ops), H.After(AcceptorTrace(cfg, pc, codec, ops, stamps)));
      LoadAcceptor(cfg, pc, codec, disk) == Ok((live.promises, live.accepted)) <==>
        live.savedPromises.Some? && A.NothingForgotten(cfg, live) && A.OldestReadable(cfg, live)
  {
    hide H.After, H.WellUsed, LoadJournal, A.InOrderRun, A.After, InStep, Combine, Replay, Readable;
    AcceptorRunOnDisk(cfg, pc, codec, ops, stamps);
    var reqs := AcceptorTrace(cfg, pc, codec, ops, stamps);
    var live := A.After(cfg, ops);
    JournalReadsBack(cfg, codec, reqs, live.store);
    var line := A.RunStaysDurable(cfg, ops);
    A.RestartExactly(cfg, live, line);
  }

  // ----- the learner ------------------------------------------------------------------------

  function LearnerAsks(cfg: StorageConfig, codec: Codec<Value>, st: LearnerState, op: L.Op, stamp: H.Stamp): seq<H.Request>
    requires cfg.Valid()
  {
    match op
    case LearnAndExecute(slot, value) =>
      var learnt := Learn(cfg, st, slot, value).0;
      var adu := NextAdu(learnt.learned, learnt.adu);
      (if slot in st.learned then [] else SaveAsks(cfg, codec, Entry(slot, value))) +
      (if adu == st.adu then [] else SnapshotAsks(cfg, codec, learnt.store, learnt.learned, adu, Some(adu), stamp))
    case RestartOp => []
  }

  function LearnerTrace(cfg: StorageConfig, codec: Codec<Value>, ops: seq<L.Op>, stamps: nat -> H.Stamp): seq<H.Request>
    requires cfg.Valid()
  {
    if ops == [] then []
    else
      var init := ops[..|ops| - 1];
      LearnerTrace(cfg, codec, init, stamps) + LearnerAsks(cfg, codec, L.After(cfg, init), ops[|ops| - 1], stamps(|init|))
  }

  function LoadLearner(cfg: StorageConfig, codec: Codec<Value>, disk: H.Disk): Result<(map<Slot, Value>, Slot)> {
    match LoadJournal(cfg, codec, disk)
    case Err(e) => Err(e)
    case Ok((snapshots, changes)) =>
      var learned := Replay(Combine(snapshots), changes);
      Ok((learned, NextAdu(learned, SnapshotAdu(snapshots, 0))))
  }

  lemma LearnOnDisk(cfg: StorageConfig, codec: Codec<Value>, reqs: seq<H.Request>, st: LearnerState,
                    slot: Slot, value: Value, stamp: H.Stamp)
    requires cfg.Valid() && OnDisk(codec, reqs, st.store, cfg.maxSnapshots)
    ensures var op := L.LearnAndExecute(slot, value);
      OnDisk(codec, reqs + LearnerAsks(cfg, codec, st, op, stamp), L.Do(cfg, st, op).store, cfg.maxSnapshots)
  {
    hide OnDisk, MaybeSnapshot, SnapshotDue, NextAdu;
    var learnt := Learn(cfg, st, slot, value).0;
    var adu := NextAdu(learnt.learned, learnt.adu);
    var saved := if slot in st.learned then [] else SaveAsks(cfg, codec, Entry(slot, value));
    var snapped := if adu == st.adu then [] else SnapshotAsks(cfg, codec, learnt.store, learnt.learned, adu, Some(adu), stamp);
    if slot in st.learned {
      assert reqs + saved == reqs;
    } else {
      SaveOnDisk(cfg, codec, reqs, st.store, Entry(slot, value));
    }
    if adu == st.adu {
      assert (reqs + saved) + snapped == reqs + saved;
    } else {
      SnapshotOnDisk(cfg, codec, reqs + saved, learnt.store, learnt.learned, adu, Some(adu), stamp);
    }
    ConcatAssociative(reqs, saved, snapped);
  }

  lemma {:induction false} LearnerRunOnDisk(cfg: StorageConfig, codec: Codec<Value>, ops: seq<L.Op>, stamps: nat -> H.Stamp)
    requires cfg.Valid()
    ensures OnDisk(codec, LearnerTrace(cfg, codec, ops, stamps), L.After(cfg, ops).store, cfg.maxSnapshots)
  {
    if ops != [] {
      var (init, op) := (ops[..|ops| - 1], ops[|ops| - 1]);
      LearnerRunOnDisk(cfg, codec, init, stamps);
      var reqs := LearnerTrace(cfg, codec, init, stamps);
      match op
      case LearnAndExecute(slot, value) => LearnOnDisk(cfg, codec, reqs, L.After(cfg, init), slot, value, stamps(|init|));
      case RestartOp =>
        assert reqs + [] == reqs;
    }
  }

  /** The same for the learner: the learned map and the cursor come back if and only if the
      cursor can be read and so can the oldest slot in memory. */
  lemma LearnerRecoversFromDisk(cfg: StorageConfig, codec: Codec<Value>, ops: seq<L.Op>, stamps: nat -> H.Stamp)
    requires cfg.Valid() && cfg.enabled && 0 < cfg.maxSnapshots && L.InOrderRun(cfg, ops)
    requires Lossless(codec) && H.WellUsed(LearnerTrace(cfg, codec, ops, stamps), cfg.maxSnapshots)
    ensures var (live, disk) := (L.After(cfg, ops), H.After(LearnerTrace(cfg, codec, ops, stamps)));
      LoadLearner(cfg, codec, disk) == Ok((live.learned, live.adu)) <==>
        L.CursorReadable(cfg, live) && L.OldestReadable(cfg, live)
  {
    hide H.After, H.WellUsed, LoadJournal, L.InOrderRun, Combine, Replay, NextAdu, L.After, OnDisk, Readable;
    LearnerRunOnDisk(cfg, codec, ops, stamps);
    JournalReadsBack(cfg, codec, LearnerTrace(cfg, codec, ops, stamps), L.After(cfg, ops).store);
    L.RecoveryIsExact(cfg, ops);
  }
}
