/** The StorageHelper that the acceptor and the learner each carry: a changelog,
    rotated snapshots of the newest slots, and in-memory pruning.  Both copies of
    the helper do the same thing to a slot-indexed map, so they are modelled once,
    for any kind of entry.  Encoding is left to the disk model. */
module Journal {
  import opened Prelude
  import opened PaxosTypes

  datatype StorageConfig = StorageConfig(
    enabled: bool,
    snapshotInterval: u64,
    snapshotOffset: u64,
    maxSnapshots: u64,
    loadSnapshots: u64)
  {
    /** The offset is a hash taken modulo the interval, so building a helper with
        interval zero panics. */
    predicate Valid() { 0 < snapshotInterval && snapshotOffset < snapshotInterval }

    predicate OnGrid(slot: Slot)
      requires Valid()
    {
      slot % snapshotInterval == snapshotOffset
    }

    function KeepSpan(): u64 { SaturatingMul(snapshotInterval, maxSnapshots) }
  }

  datatype Entry<+V> = Entry(slot: Slot, item: V)

  /** The learner stores its ADU beside the entries, the acceptor nothing. */
  datatype Snapshot<+V> = Snapshot(adu: Option<Slot>, entries: map<Slot, V>)

  /** `snapshots` and `changes` are on disk.  `lastSnapshot` is in memory only, and
      `prunedTo` is a history variable: the largest threshold pruned to so far. */
  datatype Store<+V> = Store(
    lastSnapshot: Slot,
    prunedTo: Slot,
    snapshots: seq<Snapshot<V>>,
    changes: seq<Entry<V>>)

  function EmptyStore<V>(): Store<V> { Store(0, 0, [], []) }

  /** What a new process finds: the disk, and nothing else. */
  function Reopened<V>(store: Store<V>): Store<V> { store.(lastSnapshot := 0) }

  function SaveChange<V>(cfg: StorageConfig, store: Store<V>, e: Entry<V>): Store<V> {
    if cfg.enabled then store.(changes := store.changes + [e]) else store
  }

  /** The `k` entries with the largest slots. */
  function Top<V>(live: map<Slot, V>, k: nat): map<Slot, V> {
    map s | s in live && |Above(live.Keys, s)| < k :: live[s]
  }

  function Threshold<V>(cfg: StorageConfig, live: map<Slot, V>): Slot {
    if live.Keys == {} then 0 else SaturatingSub(MaxOf(live.Keys), cfg.KeepSpan())
  }

  function Prune<V>(cfg: StorageConfig, live: map<Slot, V>): map<Slot, V> {
    if cfg.maxSnapshots == 0 || live.Keys == {} then live
    else map s | s in live && Threshold(cfg, live) < s :: live[s]
  }

  function Checkpoint<V>(cfg: StorageConfig, store: Store<V>, live: map<Slot, V>, adu: Option<Slot>): Store<V> {
    var snapshot := Snapshot(adu, Top(live, cfg.snapshotInterval));
    store.(
      snapshots := LastN(store.snapshots + [snapshot], cfg.maxSnapshots),
      changes := [],
      prunedTo := if cfg.maxSnapshots == 0 || Threshold(cfg, live) <= store.prunedTo then store.prunedTo
                  else Threshold(cfg, live))
  }

  predicate SnapshotDue<V>(cfg: StorageConfig, store: Store<V>, slot: Slot)
    requires cfg.Valid()
  {
    cfg.enabled && cfg.OnGrid(slot) && store.lastSnapshot < slot
  }

  function MaybeSnapshot<V>(cfg: StorageConfig, store: Store<V>, live: map<Slot, V>, slot: Slot, adu: Option<Slot>)
    : (Store<V>, map<Slot, V>)
    requires cfg.Valid()
  {
    if SnapshotDue(cfg, store, slot)
    then (Checkpoint(cfg, store, live, adu).(lastSnapshot := slot), Prune(cfg, live))
    else (store, live)
  }

  function Combine<V>(snapshots: seq<Snapshot<V>>): map<Slot, V> {
    if snapshots == [] then map[]
    else Combine(snapshots[..|snapshots| - 1]) + snapshots[|snapshots| - 1].entries
  }

  function Replay<V>(base: map<Slot, V>, changes: seq<Entry<V>>): map<Slot, V> {
    if changes == [] then base
    else
      var last := changes[|changes| - 1];
      Replay(base, changes[..|changes| - 1])[last.slot := last.item]
  }

  function Restore<V>(cfg: StorageConfig, store: Store<V>): map<Slot, V> {
    Replay(Combine(LastN(store.snapshots, cfg.loadSnapshots)), store.changes)
  }

  lemma TailMembership(r: seq<nat>, from: nat, j: nat)
    requires StrictlyIncreasing(r) && from <= |r| && j < |r|
    ensures r[j] in r[from..] <==> from <= j
  {
  }

  /** Walking the keys from the end, `k` steps reach exactly the `k` largest slots. */
  lemma TopIsSuffix<V>(live: map<Slot, V>, r: seq<nat>, from: nat, k: nat, j: nat)
    requires StrictlyIncreasing(r) && forall x :: x in live.Keys <==> x in r
    requires from <= |r| && |r| - from == Min(k, |r|)
    requires j < |r| && r[j] in live
    ensures r[j] in Top(live, k) <==> r[j] in r[from..]
  {
    RankInOrder(live.Keys, r, j);
    TailMembership(r, from, j);
  }

  lemma TrimmedIsTop<V>(live: map<Slot, V>, r: seq<nat>, from: nat, k: nat, trimmed: map<Slot, V>)
    requires StrictlyIncreasing(r) && forall x :: x in live.Keys <==> x in r
    requires from <= |r| && |r| - from == Min(k, |r|)
    requires trimmed.Keys == set j | from <= j < |r| :: r[j]
    requires forall s :: s in trimmed ==> s in live && trimmed[s] == live[s]
    ensures trimmed == Top(live, k)
  {
    forall s: Slot | s in live ensures s in trimmed <==> s in Top(live, k) {
      var j :| 0 <= j < |r| && r[j] == s;
      TopIsSuffix(live, r, from, k, j);
      TailMembership(r, from, j);
    }
  }

  lemma MaybeSnapshotKeeps<V>(cfg: StorageConfig, store: Store<V>, live: map<Slot, V>, slot: Slot, adu: Option<Slot>)
    requires cfg.Valid()
    ensures var (store', live') := MaybeSnapshot(cfg, store, live, slot, adu);
      && store.prunedTo <= store'.prunedTo
      && (forall s :: s in live' ==> s in live && live'[s] == live[s])
      && (forall s :: s in live && (store'.prunedTo < s || !cfg.enabled) ==> s in live')
  {
  }

  /** The entries of these slots, as they are. */
  ghost predicate IsPart<V(!new)>(part: map<Slot, V>, whole: map<Slot, V>, slots: set<Slot>) {
    part.Keys == slots && forall s :: s in part ==> s in whole && part[s] == whole[s]
  }

  /** The slots with fewer than one interval of slots above them. */
  function NewestSlots<V>(cfg: StorageConfig, live: map<Slot, V>): set<Slot> {
    set s | s in live && |Above(live.Keys, s)| < cfg.snapshotInterval
  }

  /** The slots less than all kept intervals below the newest one; slot 0 never is. */
  function KeptSlots<V>(cfg: StorageConfig, live: map<Slot, V>): set<Slot> {
    set s | s in live &&
      (cfg.maxSnapshots == 0 || (0 < s && MaxOf(live.Keys) < s + cfg.snapshotInterval * cfg.maxSnapshots))
  }

  /** What one call does, for every journal and every map: a snapshot is taken exactly on
      grid slots past the last one.  It then holds the newest slots, the older ones rotate,
      the changelog is emptied, and memory keeps what the intervals kept span. */
  lemma MaybeSnapshotIsExact<V(!new)>(cfg: StorageConfig, store: Store<V>, live: map<Slot, V>, slot: Slot, adu: Option<Slot>)
    requires cfg.Valid()
    ensures var (store', live') := MaybeSnapshot(cfg, store, live, slot, adu);
      if cfg.enabled && slot % cfg.snapshotInterval == cfg.snapshotOffset && store.lastSnapshot < slot then
        && store'.lastSnapshot == slot && store'.changes == []
        && IsPart(live', live, KeptSlots(cfg, live))
        && exists taken: Snapshot<V> ::
             && store'.snapshots == LastN(store.snapshots + [taken], cfg.maxSnapshots) && taken.adu == adu
             && IsPart(taken.entries, live, NewestSlots(cfg, live))
      else store' == store && live' == live
  {
    hide LastN, Prune, KeptSlots;
    var taken := Snapshot(adu, Top(live, cfg.snapshotInterval));
    if SnapshotDue(cfg, store, slot) {
      PruneIsExact(cfg, live);
      assert IsPart(taken.entries, live, NewestSlots(cfg, live));
      assert MaybeSnapshot(cfg, store, live, slot, adu).0.snapshots == LastN(store.snapshots + [taken], cfg.maxSnapshots);
    }
  }

  lemma PruneIsExact<V(!new)>(cfg: StorageConfig, live: map<Slot, V>)
    requires cfg.Valid()
    ensures IsPart(Prune(cfg, live), live, KeptSlots(cfg, live))
  {
    var span := cfg.snapshotInterval * cfg.maxSnapshots;
    assert 0 <= span;
  }

  /** The iteration order of a BTreeMap. */
  method OrderedKeys(keys: set<nat>) returns (r: seq<nat>)
    ensures StrictlyIncreasing(r)
    ensures forall x :: x in keys <==> x in r
  {
    r := Sorted(keys);
  }

  /** The helper as the object it is in the source. */
  class StorageHelper<V> {
    const cfg: StorageConfig
    var lastSnapshot: Slot
    ghost var prunedTo: Slot
    var snapshots: seq<Snapshot<V>>
    var changes: seq<Entry<V>>

    ghost function State(): Store<V>
      reads this
    {
      Store(lastSnapshot, prunedTo, snapshots, changes)
    }

    constructor (cfg: StorageConfig, snapshots: seq<Snapshot<V>>, changes: seq<Entry<V>>)
      requires cfg.Valid()
      ensures this.cfg == cfg
      ensures State() == Store(0, 0, snapshots, changes)
    {
      this.cfg := cfg;
      this.snapshots, this.changes := snapshots, changes;
      lastSnapshot, prunedTo := 0, 0;
    }

    method Save(e: Entry<V>)
      modifies this
      ensures State() == SaveChange(cfg, old(State()), e)
    {
      if cfg.enabled {
        changes := changes + [e];
      }
    }

    /** Walks the keys from the largest down, at most `k` of them. */
    method Trim(live: map<Slot, V>, k: u64) returns (trimmed: map<Slot, V>)
      ensures trimmed == Top(live, k)
    {
      var keys := OrderedKeys(live.Keys);
      var i := |keys|;
      trimmed := map[];
      while 0 < i && |keys| - i < k
        invariant 0 <= i <= |keys| && |keys| - i <= k
        invariant trimmed.Keys == set j | i <= j < |keys| :: keys[j]
        invariant trimmed.Keys <= live.Keys
        invariant forall s :: s in trimmed ==> trimmed[s] == live[s]
      {
        i := i - 1;
        assert keys[i] in keys;
        trimmed := trimmed[keys[i] := live[keys[i]]];
      }
      TrimmedIsTop(live, keys, i, k, trimmed);
    }

    /** The disk writes the snapshot, empties the changelog and drops the oldest. */
    method Rotate(snapshot: Snapshot<V>)
      modifies this`snapshots, this`changes
      ensures snapshots == LastN(old(snapshots) + [snapshot], cfg.maxSnapshots)
      ensures changes == []
    {
      ghost var all := snapshots + [snapshot];
      snapshots := snapshots + [snapshot];
      changes := [];
      while |snapshots| > cfg.maxSnapshots
        invariant Min(cfg.maxSnapshots, |all|) <= |snapshots| <= |all|
        invariant snapshots == all[|all| - |snapshots|..] && changes == []
      {
        snapshots := snapshots[1..];
      }
    }

    method CheckpointSnapshot(live: map<Slot, V>, adu: Option<Slot>) returns (pruned: map<Slot, V>)
      modifies this
      ensures State() == Checkpoint(cfg, old(State()), live, adu)
      ensures pruned == Prune(cfg, live)
    {
      var trimmed := Trim(live, cfg.snapshotInterval);
      Rotate(Snapshot(adu, trimmed));
      pruned := live;
      if cfg.maxSnapshots > 0 && live.Keys != {} {
        var threshold := SaturatingSub(MaxOf(live.Keys), cfg.KeepSpan());
        pruned := map s | s in live && threshold < s :: live[s];
        if prunedTo < threshold {
          prunedTo := threshold;
        }
      }
    }

    method Maybe(slot: Slot, live: map<Slot, V>, adu: Option<Slot>) returns (live': map<Slot, V>)
      requires cfg.Valid()
      modifies this
      ensures (State(), live') == MaybeSnapshot(cfg, old(State()), live, slot, adu)
    {
      live' := live;
      if !cfg.enabled || cfg.snapshotInterval == 0 {
        return;
      }
      if slot % cfg.snapshotInterval == cfg.snapshotOffset && slot > lastSnapshot {
        live' := CheckpointSnapshot(live, adu);
        lastSnapshot := slot;
      }
    }

    method LoadEntries() returns (live: map<Slot, V>)
      requires cfg.Valid()
      ensures live == Restore(cfg, State())
    {
      var loaded := LastN(snapshots, cfg.loadSnapshots);
      live := map[];
      for i := 0 to |loaded|
        invariant live == Combine(loaded[..i])
      {
        assert loaded[..i + 1][..i] == loaded[..i];
        live := live + loaded[i].entries;
      }
      assert loaded[..|loaded|] == loaded;
      for i := 0 to |changes|
        invariant live == Replay(Combine(loaded), changes[..i])
      {
        assert changes[..i + 1][..i] == changes[..i];
        live := live[changes[i].slot := changes[i].item];
      }
      assert changes[..|changes|] == changes;
    }
  }
}
