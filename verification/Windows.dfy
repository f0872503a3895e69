/** What the journal holds when entries arrive in slots 1, 2, 3, …: snapshots tile
    the newest slots in windows of one interval, and the changelog holds the rest.  A
    restart may shorten what is in memory, or forget it all and start again at slot 1
    on a disk that still holds the forgotten slots. */
module Windows {
  import opened Prelude
  import opened PaxosTypes
  import opened Journal

  /** The entries of slots in `(lo, hi]`, where `vals[s - 1]` belongs to slot `s`. */
  function Window<V>(vals: seq<V>, lo: int, hi: int): map<Slot, V>
    requires hi <= |vals| < TWO_TO_THE_64
  {
    map s: Slot | lo < s <= hi && 0 < s :: ValueAt(vals, s)
  }

  function ValueAt<V>(vals: seq<V>, s: Slot): V
    requires 0 < s <= |vals|
  {
    vals[s - 1]
  }

  function Tail<V>(vals: seq<V>, from: nat): seq<Entry<V>>
    requires from <= |vals| < TWO_TO_THE_64
  {
    seq(|vals| - from, i requires 0 <= i < |vals| - from => Entry(from + 1 + i, vals[from + i]))
  }

  /** `k` snapshots, the newest taken at slot `c`, each one interval after the last. */
  function Tiles<V>(vals: seq<V>, tagged: bool, c: int, interval: u64, k: nat): seq<Snapshot<V>>
    requires c <= |vals| < TWO_TO_THE_64
    decreases k
  {
    if k == 0 then []
    else
      Tiles(vals, tagged, c - interval, interval, k - 1) +
      [Snapshot(if tagged && 0 <= c then Some(c) else None, Window(vals, c - interval, c))]
  }

  function FirstCheckpoint(cfg: StorageConfig): Slot
    requires cfg.Valid()
  {
    if cfg.snapshotOffset == 0 then cfg.snapshotInterval else cfg.snapshotOffset
  }

  /** Where a tiling of `k` windows that ends at `c` begins. */
  function Start(c: int, interval: nat, k: nat): (lo: int)
    ensures lo <= c
    decreases k
  {
    if k == 0 then c else Start(c - interval, interval, k - 1)
  }

  lemma {:induction false} StartIs(c: int, interval: nat, k: nat)
    ensures Start(c, interval, k) == c - interval * k
    decreases k
  {
    if k > 0 {
      StartIs(c - interval, interval, k - 1);
      assert interval * k == interval * (k - 1) + interval;
    }
  }

  /** One line of slots: `vals` were entered in slots 1, 2, …, the newest checkpoint among
      them was at slot `c` (0 for none), and memory holds those above `lo`.  `left` and
      `early` are loadable leftovers of lines that were forgotten before it. */
  datatype Line<+V> = Line(vals: seq<V>, c: nat, lo: int, left: seq<Snapshot<V>>, early: seq<Entry<V>>)

  ghost predicate Positive<V>(snapshots: seq<Snapshot<V>>, changes: seq<Entry<V>>) {
    && (forall i, s :: 0 <= i < |snapshots| && s in snapshots[i].entries ==> 0 < s)
    && (forall i :: 0 <= i < |changes| ==> 0 < changes[i].slot)
  }

  /** How many loadable snapshots belong to the line. */
  function Own<V>(cfg: StorageConfig, line: Line<V>, store: Store<V>): int {
    |LastN(store.snapshots, cfg.loadSnapshots)| - |line.left|
  }

  /** How far things reach after `n` slots: the `j` loadable snapshots of the line are fewer
      than could be loaded only if they go down to slot 1, and memory holds at least what
      they cover. */
  ghost predicate Reaches(cfg: StorageConfig, c: nat, lo: int, n: nat, j: int)
    requires cfg.Valid()
  {
    var (s, r) := (cfg.snapshotInterval, cfg.maxSnapshots);
    && 0 <= j && c <= n < TWO_TO_THE_64 && (n == 0 || lo < n)
    && Start(c, s, r) <= lo && (lo <= 0 || lo <= Start(c, s, j))
    && (j < Min(cfg.loadSnapshots, r) ==> Start(c, s, j) <= 0)
    && if c == 0 then j == 0 && n < FirstCheckpoint(cfg) else cfg.OnGrid(c) && n < c + s
  }

  /** Memory and disk hold the line. */
  ghost predicate InStep<V(!new)>(cfg: StorageConfig, tagged: bool, line: Line<V>, store: Store<V>, live: map<Slot, V>)
    requires cfg.Valid()
  {
    var (vals, c, j) := (line.vals, line.c, Own(cfg, line, store));
    && Reaches(cfg, c, line.lo, |vals|, j)
    && live == Window(vals, line.lo, |vals|)
    && store.changes == line.early + Tail(vals, c)
    && LastN(store.snapshots, cfg.loadSnapshots) == line.left + Tiles(vals, tagged, c, cfg.snapshotInterval, j)
    && |store.snapshots| <= cfg.maxSnapshots
    && store.lastSnapshot <= |vals|
    && Positive(line.left, line.early)
    && (0 < c ==> line.early == [] && store.snapshots != [])
  }

  lemma {:induction false} TilesLength<V>(vals: seq<V>, tagged: bool, c: int, interval: u64, k: nat)
    requires c <= |vals| < TWO_TO_THE_64
    ensures |Tiles(vals, tagged, c, interval, k)| == k
    decreases k
  {
    if k > 0 {
      TilesLength(vals, tagged, c - interval, interval, k - 1);
    }
  }

  lemma {:induction false} TilesExtend<V>(vals: seq<V>, v: V, tagged: bool, c: int, interval: u64, k: nat)
    requires c <= |vals| && |vals| + 1 < TWO_TO_THE_64
    ensures Tiles(vals + [v], tagged, c, interval, k) == Tiles(vals, tagged, c, interval, k)
    decreases k
  {
    if k > 0 {
      TilesExtend(vals, v, tagged, c - interval, interval, k - 1);
      assert Window(vals + [v], c - interval, c) == Window(vals, c - interval, c);
    }
  }

  /** Loading or keeping the newest `j` snapshots of a tiling is a tiling. */
  lemma {:induction false} NewestTiles<V>(vals: seq<V>, tagged: bool, c: int, interval: u64, k: nat, j: nat)
    requires c <= |vals| < TWO_TO_THE_64
    ensures LastN(Tiles(vals, tagged, c, interval, k), j) == Tiles(vals, tagged, c, interval, Min(j, k))
    decreases k
  {
    TilesLength(vals, tagged, c, interval, k);
    if 0 < j < k {
      var init := Tiles(vals, tagged, c - interval, interval, k - 1);
      NewestTiles(vals, tagged, c - interval, interval, k - 1, j - 1);
      TilesLength(vals, tagged, c - interval, interval, k - 1);
      var last := Tiles(vals, tagged, c, interval, k)[k - 1];
      assert LastN(init + [last], j) == LastN(init, j - 1) + [last];
    }
  }

  lemma CombineSnoc<V>(snapshots: seq<Snapshot<V>>, last: Snapshot<V>)
    ensures Combine(snapshots + [last]) == Combine(snapshots) + last.entries
  {
  }

  lemma WindowsTouch<V>(vals: seq<V>, lo: int, mid: int, hi: int)
    requires lo <= mid <= hi <= |vals| < TWO_TO_THE_64
    ensures Window(vals, lo, mid) + Window(vals, mid, hi) == Window(vals, lo, hi)
  {
  }

  lemma TilesSnoc<V>(vals: seq<V>, tagged: bool, c: int, interval: u64, k: nat) returns (last: Snapshot<V>)
    requires 0 < k && c <= |vals| < TWO_TO_THE_64
    ensures Tiles(vals, tagged, c, interval, k) == Tiles(vals, tagged, c - interval, interval, k - 1) + [last]
    ensures last.entries == Window(vals, c - interval, c)
  {
    last := Snapshot(if tagged && 0 <= c then Some(c) else None, Window(vals, c - interval, c));
  }

  lemma NoTilesCombine<V>(vals: seq<V>, tagged: bool, c: int, interval: u64)
    requires c <= |vals| < TWO_TO_THE_64
    ensures Combine(Tiles(vals, tagged, c, interval, 0)) == Window(vals, c, c)
  {
  }

  /** Snapshots taken one interval apart combine into one window. */
  lemma {:induction false} TilesCombine<V>(vals: seq<V>, tagged: bool, c: int, interval: u64, k: nat)
    requires c <= |vals| < TWO_TO_THE_64
    ensures Combine(Tiles(vals, tagged, c, interval, k)) == Window(vals, Start(c, interval, k), c)
    decreases k
  {
    hide Window, Combine, Tiles;
    if k == 0 {
      NoTilesCombine(vals, tagged, c, interval);
    } else {
      TilesCombine(vals, tagged, c - interval, interval, k - 1);
      var last := TilesSnoc(vals, tagged, c, interval, k);
      CombineSnoc(Tiles(vals, tagged, c - interval, interval, k - 1), last);
      WindowsTouch(vals, Start(c, interval, k), c - interval, c);
    }
  }

  lemma ReplaySnoc<V>(base: map<Slot, V>, changes: seq<Entry<V>>, e: Entry<V>)
    ensures Replay(base, changes + [e]) == Replay(base, changes)[e.slot := e.item]
  {
    assert (changes + [e])[..|changes|] == changes;
  }

  lemma {:induction false} TailOverlays<V>(base: map<Slot, V>, vals: seq<V>, from: nat)
    requires from <= |vals| < TWO_TO_THE_64
    ensures Replay(base, Tail(vals, from)) == base + Window(vals, from, |vals|)
    decreases |vals|
  {
    hide Replay, Tail, Window;
    if from == |vals| {
      NothingOverlays(base, vals);
    } else {
      var (init, last) := (vals[..|vals| - 1], vals[|vals| - 1]);
      assert vals == init + [last];
      TailOverlays(base, init, from);
      TailExtends(init, last, from);
      WindowExtends(init, last, from);
      ReplaySnoc(base, Tail(init, from), Entry(|vals|, last));
      OverlayUpdate(base, Window(init, from, |init|), |vals|, last);
    }
  }

  lemma NothingOverlays<V>(base: map<Slot, V>, vals: seq<V>)
    requires |vals| < TWO_TO_THE_64
    ensures Replay(base, Tail(vals, |vals|)) == base + Window(vals, |vals|, |vals|)
  {
    EmptyTail(vals);
  }

  lemma OverlayUpdate<V>(a: map<Slot, V>, b: map<Slot, V>, s: Slot, v: V)
    ensures (a + b)[s := v] == a + b[s := v]
  {
  }

  lemma {:induction false} ReplayConcat<V>(base: map<Slot, V>, a: seq<Entry<V>>, b: seq<Entry<V>>)
    ensures Replay(base, a + b) == Replay(Replay(base, a), b)
  {
    if b == [] {
      assert a + b == a;
    } else {
      var (init, last) := (b[..|b| - 1], b[|b| - 1]);
      ReplayConcat(base, a, init);
      assert (a + b)[..|a + b| - 1] == a + init && (a + b)[|a + b| - 1] == last;
    }
  }

  lemma MapsAssociate<V>(a: map<Slot, V>, b: map<Slot, V>, c: map<Slot, V>)
    ensures a + (b + c) == a + b + c
  {
  }

  lemma {:induction false} CombineConcat<V>(a: seq<Snapshot<V>>, b: seq<Snapshot<V>>)
    ensures Combine(a + b) == Combine(a) + Combine(b)
  {
    if b == [] {
      assert a + b == a;
    } else {
      var (init, last) := (b[..|b| - 1], b[|b| - 1]);
      hide Combine;
      CombineConcat(a, init);
      CombineSnoc(a + init, last);
      CombineSnoc(init, last);
      MapsAssociate(Combine(a), Combine(init), last.entries);
      assert a + b == a + init + [last] && b == init + [last];
    }
  }

  lemma TopOfWindow<V>(vals: seq<V>, lo: int, k: nat)
    requires |vals| < TWO_TO_THE_64 && lo <= |vals| - k
    ensures Top(Window(vals, lo, |vals|), k) == Window(vals, |vals| - k, |vals|)
  {
    var live := Window(vals, lo, |vals|);
    forall s: Slot | s in live ensures |Above(live.Keys, s)| == |vals| - s {
      IntervalCardinality(Above(live.Keys, s), s, |vals|);
    }
  }

  lemma PrunedWindow<V>(cfg: StorageConfig, vals: seq<V>, lo: int)
    requires cfg.Valid() && 0 < cfg.maxSnapshots && 0 < |vals| < TWO_TO_THE_64 && lo < |vals|
    ensures var from := Max(lo, Start(|vals|, cfg.snapshotInterval, cfg.maxSnapshots));
      Prune(cfg, Window(vals, lo, |vals|)) == Window(vals, from, |vals|)
  {
    var live := Window(vals, lo, |vals|);
    var n: Slot := |vals|;
    assert n in live.Keys;
    assert MaxOf(live.Keys) == n;
    StartIs(|vals|, cfg.snapshotInterval, cfg.maxSnapshots);
    assert Threshold(cfg, live) == SaturatingSub(n, cfg.KeepSpan());
  }

  lemma MultipleBelow(m: int, d: int)
    requires -m < m * d < m
    ensures d == 0
  {
  }

  lemma RemaindersOf(x: nat, y: nat, m: nat)
    requires 0 < m && x < y <= x + m
    ensures x % m == y % m <==> y == x + m
  {
    var (p, q) := (x / m, y / m);
    assert x == m * p + x % m;
    assert y == m * q + y % m;
    var d := q - p;
    assert y - x == m * d + (y % m - x % m) by {
      assert m * q - m * p == m * d;
    }
    if x % m == y % m && y < x + m {
      MultipleBelow(m, d);
    }
    if y == x + m {
      assert m * (d - 1) == x % m - y % m by {
        assert m * (d - 1) == m * d - m;
      }
      MultipleBelow(m, d - 1);
    }
  }

  lemma {:induction false} StartStrict(c: int, interval: nat, j: nat, k: nat)
    requires j <= k
    ensures Start(c, interval, k) <= Start(c, interval, j)
    ensures 0 < interval && j < k ==> Start(c, interval, k) < Start(c, interval, j)
    decreases k
  {
    if 0 < j {
      StartStrict(c - interval, interval, j - 1, k - 1);
    }
  }

  lemma {:induction false} StartShift(c: int, d: int, interval: nat, k: nat)
    ensures Start(c + d, interval, k) == Start(c, interval, k) + d
    decreases k
  {
    if 0 < k {
      StartShift(c - interval, d, interval, k - 1);
    }
  }

  lemma FirstRemainder(x: nat, m: nat)
    requires 0 < x <= m
    ensures x % m == if x == m then 0 else x
  {
  }

  /** Whether the next slot is a checkpoint, told from the last one. */
  lemma CheckpointIsNext(cfg: StorageConfig, n: nat, c: nat)
    requires cfg.Valid() && c <= n && n + 1 < TWO_TO_THE_64
    requires if c == 0 then n < FirstCheckpoint(cfg) else cfg.OnGrid(c) && n < c + cfg.snapshotInterval
    ensures cfg.OnGrid(n + 1) <==>
      n + 1 == if c == 0 then FirstCheckpoint(cfg) else c + cfg.snapshotInterval
  {
    if c == 0 {
      FirstRemainder(n + 1, cfg.snapshotInterval);
    } else {
      RemaindersOf(c, n + 1, cfg.snapshotInterval);
    }
  }

  function Entered<V>(line: Line<V>, v: V): Line<V> { line.(vals := line.vals + [v]) }

  lemma EntryKeepsStep<V(!new)>(cfg: StorageConfig, tagged: bool, line: Line<V>, store: Store<V>, live: map<Slot, V>, v: V)
    requires cfg.Valid() && cfg.enabled && |line.vals| + 1 < TWO_TO_THE_64
    requires InStep(cfg, tagged, line, store, live)
    requires !cfg.OnGrid(|line.vals| + 1)
    ensures var n: Slot := |line.vals| + 1;
      InStep(cfg, tagged, Entered(line, v), SaveChange(cfg, store, Entry(n, v)), live[n := v])
  {
    hide Tail, Window, Tiles, Start, StorageConfig.OnGrid, LastN, Positive;
    var (vals, c) := (line.vals, line.c);
    CheckpointIsNext(cfg, |vals|, c);
    TilesExtend(vals, v, tagged, c, cfg.snapshotInterval, Own(cfg, line, store));
    TailExtends(vals, v, c);
    WindowExtends(vals, v, line.lo);
    ConcatAssociative(line.early, Tail(vals, c), [Entry(|vals| + 1, v)]);
  }

  lemma TailExtends<V>(vals: seq<V>, v: V, c: nat)
    requires c <= |vals| && |vals| + 1 < TWO_TO_THE_64
    ensures Tail(vals + [v], c) == Tail(vals, c) + [Entry(|vals| + 1, v)]
  {
  }

  lemma WindowExtends<V>(vals: seq<V>, v: V, lo: int)
    requires lo <= |vals| && |vals| + 1 < TWO_TO_THE_64
    ensures Window(vals + [v], lo, |vals| + 1) == Window(vals, lo, |vals|)[|vals| + 1 := v]
  {
  }

  // ----- a checkpoint ------------------------------------------------------------------

  lemma LastNConcat<T>(a: seq<T>, b: seq<T>, m: nat)
    ensures LastN(a + b, m) == if |b| <= m then LastN(a, m - |b|) + b else LastN(b, m)
  {
  }

  /** What is loadable after a snapshot depends on what was loadable before it. */
  lemma LoadableAfter<T>(s: seq<T>, x: T, keep: nat, load: nat)
    ensures LastN(LastN(s + [x], keep), load) == LastN(LastN(s, load) + [x], Min(load, keep))
  {
    var m := Min(load, keep);
    LastNTwice(s + [x], keep, load);
    if m == 0 {
      NothingLast(s + [x]);
      NothingLast(LastN(s, load) + [x]);
    } else {
      hide LastN;
      LastNPlusOne(s, x, m - 1);
      LastNPlusOne(LastN(s, load), x, m - 1);
      LastNTwice(s, load, m - 1);
    }
  }

  function NewSnapshot<V>(tagged: bool, vals: seq<V>, s: u64): Snapshot<V>
    requires 0 < |vals| < TWO_TO_THE_64
  {
    Snapshot(if tagged then Some(|vals|) else None, Window(vals, |vals| - s, |vals|))
  }

  lemma OneMoreTile<V>(vals: seq<V>, tagged: bool, c: nat, s: u64, j: nat, v: V)
    requires c <= |vals| && |vals| + 1 < TWO_TO_THE_64
    requires j == 0 || c + s == |vals| + 1
    ensures Tiles(vals + [v], tagged, |vals| + 1, s, j + 1) == Tiles(vals, tagged, c, s, j) + [NewSnapshot(tagged, vals + [v], s)]
  {
    hide Window;
    TilesExtend(vals, v, tagged, c, s, j);
  }

  /** The line's own loadable snapshots after one more, and the leftovers beside them. */
  lemma CheckpointTiles<V>(vals: seq<V>, tagged: bool, c: nat, s: u64, m: nat, j: nat, left: seq<Snapshot<V>>, v: V)
    requires c <= |vals| && |vals| + 1 < TWO_TO_THE_64
    requires j == 0 || c + s == |vals| + 1
    requires |left| + j <= m
    ensures var (n, j') := (|vals| + 1, Min(m, j + 1));
      LastN(left + Tiles(vals, tagged, c, s, j) + [NewSnapshot(tagged, vals + [v], s)], m)
      == LastN(left, m - j') + Tiles(vals + [v], tagged, n, s, j')
  {
    hide Tiles, NewSnapshot, LastN;
    OneMoreTile(vals, tagged, c, s, j, v);
    TilesLength(vals + [v], tagged, |vals| + 1, s, j + 1);
    var own := Tiles(vals + [v], tagged, |vals| + 1, s, j + 1);
    ConcatAssociative(left, Tiles(vals, tagged, c, s, j), [NewSnapshot(tagged, vals + [v], s)]);
    LastNConcat(left, own, m);
    NewestTiles(vals + [v], tagged, |vals| + 1, s, j + 1, m);
    NothingLast(left);
  }

  lemma NothingLast<T>(s: seq<T>)
    ensures LastN(s, 0) == []
  {
  }

  function Checkpointed<V>(cfg: StorageConfig, line: Line<V>, store: Store<V>, v: V): Line<V> {
    var n := |line.vals| + 1;
    var m := Min(cfg.loadSnapshots, cfg.maxSnapshots);
    Line(line.vals + [v], n, Max(line.lo, Start(n, cfg.snapshotInterval, cfg.maxSnapshots)),
         LastN(line.left, Max(0, m - Min(m, Max(0, Own(cfg, line, store)) + 1))), [])
  }

  lemma SameWindow<V>(vals: seq<V>, a: int, b: int, hi: int)
    requires hi <= |vals| < TWO_TO_THE_64
    requires a == b || (a <= 0 && b <= 0)
    ensures Window(vals, a, hi) == Window(vals, b, hi)
  {
  }

  /** The trimmed snapshot is one window, the newest. */
  lemma CheckpointTrims<V>(vals: seq<V>, lo: int, s: nat)
    requires |vals| < TWO_TO_THE_64 && (lo <= 0 || lo <= |vals| - s)
    ensures Top(Window(vals, lo, |vals|), s) == Window(vals, |vals| - s, |vals|)
  {
    var from := Min(lo, |vals| - s);
    SameWindow(vals, lo, from, |vals|);
    TopOfWindow(vals, from, s);
  }

  lemma CheckpointReach(cfg: StorageConfig, c: nat, lo: int, n: nat, j: nat, leftovers: nat)
    requires cfg.Valid() && 0 < cfg.maxSnapshots && n + 1 < TWO_TO_THE_64
    requires Reaches(cfg, c, lo, n, j) && cfg.OnGrid(n + 1) && leftovers + j <= Min(cfg.loadSnapshots, cfg.maxSnapshots)
    ensures var (s, m) := (cfg.snapshotInterval, Min(cfg.loadSnapshots, cfg.maxSnapshots));
      && (j == 0 || c + s == n + 1)
      && (lo <= 0 || lo <= n + 1 - s)
      && Reaches(cfg, n + 1, Max(lo, Start(n + 1, s, cfg.maxSnapshots)), n + 1, Min(m, j + 1))
  {
    var (s, r) := (cfg.snapshotInterval, cfg.maxSnapshots);
    var j' := Min(Min(cfg.loadSnapshots, r), j + 1);
    CheckpointIsNext(cfg, n, c);
    assert Start(n + 1, s, j + 1) == Start(n + 1 - s, s, j);
    StartStrict(n + 1, s, j', j + 1);
    StartStrict(n + 1, s, j', r);
    StartStrict(n + 1, s, 0, r);
  }

  lemma CheckpointResult<V>(cfg: StorageConfig, tagged: bool, vals: seq<V>, lo: int, store: Store<V>, v: V)
    requires cfg.Valid() && cfg.enabled && 0 < cfg.maxSnapshots && |vals| + 1 < TWO_TO_THE_64
    requires store.lastSnapshot <= |vals| && cfg.OnGrid(|vals| + 1)
    requires lo <= |vals| && (lo <= 0 || lo <= |vals| + 1 - cfg.snapshotInterval)
    ensures var n: Slot := |vals| + 1;
      var (store', live') := MaybeSnapshot(cfg, SaveChange(cfg, store, Entry(n, v)), Window(vals, lo, |vals|)[n := v], n,
                                           if tagged then Some(n) else None);
      && live' == Window(vals + [v], Max(lo, Start(n, cfg.snapshotInterval, cfg.maxSnapshots)), n)
      && store'.snapshots == LastN(store.snapshots + [NewSnapshot(tagged, vals + [v], cfg.snapshotInterval)], cfg.maxSnapshots)
      && store'.changes == [] && store'.lastSnapshot == n
  {
    hide Window, Start, StorageConfig.OnGrid, LastN, Top, Prune, Threshold;
    WindowExtends(vals, v, lo);
    CheckpointTrims(vals + [v], lo, cfg.snapshotInterval);
    PrunedWindow(cfg, vals + [v], lo);
  }

  lemma CheckpointLoadable<V>(cfg: StorageConfig, tagged: bool, vals: seq<V>, c: nat, left: seq<Snapshot<V>>, j: nat,
                              snapshots: seq<Snapshot<V>>, v: V)
    requires c <= |vals| && |vals| + 1 < TWO_TO_THE_64
    requires LastN(snapshots, cfg.loadSnapshots) == left + Tiles(vals, tagged, c, cfg.snapshotInterval, j)
    requires j == 0 || c + cfg.snapshotInterval == |vals| + 1
    requires |left| + j <= Min(cfg.loadSnapshots, cfg.maxSnapshots)
    ensures var (s, m) := (cfg.snapshotInterval, Min(cfg.loadSnapshots, cfg.maxSnapshots));
      var j' := Min(m, j + 1);
      var own := Tiles(vals + [v], tagged, |vals| + 1, s, j');
      && LastN(LastN(snapshots + [NewSnapshot(tagged, vals + [v], s)], cfg.maxSnapshots), cfg.loadSnapshots)
         == LastN(left, m - j') + own
      && |own| == j'
  {
    hide Tiles, NewSnapshot, LastN;
    var (s, m) := (cfg.snapshotInterval, Min(cfg.loadSnapshots, cfg.maxSnapshots));
    CheckpointTiles(vals, tagged, c, s, m, j, left, v);
    LoadableAfter(snapshots, NewSnapshot(tagged, vals + [v], s), cfg.maxSnapshots, cfg.loadSnapshots);
    TilesLength(vals + [v], tagged, |vals| + 1, s, Min(m, j + 1));
  }

  lemma CheckpointKeepsStep<V(!new)>(cfg: StorageConfig, tagged: bool, line: Line<V>, store: Store<V>, live: map<Slot, V>, v: V)
    requires cfg.Valid() && cfg.enabled && 0 < cfg.maxSnapshots && |line.vals| + 1 < TWO_TO_THE_64
    requires InStep(cfg, tagged, line, store, live) && cfg.OnGrid(|line.vals| + 1)
    ensures var n: Slot := |line.vals| + 1;
      var (store', live') := MaybeSnapshot(cfg, SaveChange(cfg, store, Entry(n, v)), live[n := v], n, if tagged then Some(n) else None);
      InStep(cfg, tagged, Checkpointed(cfg, line, store, v), store', live')
  {
    hide Window, Tiles, Start, StorageConfig.OnGrid, Tail, Positive, NewSnapshot, MaybeSnapshot, SaveChange, Reaches, LastN;
    var (m, j) := (Min(cfg.loadSnapshots, cfg.maxSnapshots), Own(cfg, line, store));
    LoadableLength(cfg, store);
    ReachIsOrdered(cfg, line.c, line.lo, |line.vals|, j);
    TilesLength(line.vals, tagged, line.c, cfg.snapshotInterval, j);
    CheckpointReach(cfg, line.c, line.lo, |line.vals|, j, |line.left|);
    CheckpointResult(cfg, tagged, line.vals, line.lo, store, v);
    CheckpointLoadable(cfg, tagged, line.vals, line.c, line.left, j, store.snapshots, v);
    EmptyTail(line.vals + [v]);
    LeftoversPositive(line.left, line.early, Max(0, m - Min(m, j + 1)));
  }

  lemma ReachIsOrdered(cfg: StorageConfig, c: nat, lo: int, n: nat, j: int)
    requires cfg.Valid() && Reaches(cfg, c, lo, n, j)
    ensures 0 <= j && c <= n && (n == 0 || lo < n) && (n == 0 ==> lo <= 0)
  {
  }

  lemma LoadableLength<V>(cfg: StorageConfig, store: Store<V>)
    requires |store.snapshots| <= cfg.maxSnapshots
    ensures |LastN(store.snapshots, cfg.loadSnapshots)| <= Min(cfg.loadSnapshots, cfg.maxSnapshots)
  {
  }

  lemma LeftoversPositive<V>(left: seq<Snapshot<V>>, early: seq<Entry<V>>, n: nat)
    requires Positive(left, early)
    ensures Positive(LastN(left, n), [])
  {
  }

  lemma EmptyTail<V>(vals: seq<V>)
    requires |vals| < TWO_TO_THE_64
    ensures Tail(vals, |vals|) == []
  {
  }

  // ----- reading back -----------------------------------------------------------------

  /** The slots a load can read, whatever the order and the values. */
  function Readable<V>(cfg: StorageConfig, store: Store<V>): set<Slot> {
    var loaded := LastN(store.snapshots, cfg.loadSnapshots);
    (set i, s | 0 <= i < |loaded| && s in loaded[i].entries :: s) +
    (set i | 0 <= i < |store.changes| :: store.changes[i].slot)
  }

  lemma SaveReads<V>(cfg: StorageConfig, store: Store<V>, e: Entry<V>)
    ensures Readable(cfg, SaveChange(cfg, store, e)) <= Readable(cfg, store) + {e.slot}
  {
  }

  lemma SnapshotReads<V>(cfg: StorageConfig, store: Store<V>, live: map<Slot, V>, slot: Slot, adu: Option<Slot>)
    requires cfg.Valid()
    ensures Readable(cfg, MaybeSnapshot(cfg, store, live, slot, adu).0) <= Readable(cfg, store) + live.Keys
  {
    hide StorageConfig.OnGrid, Above;
    var snapshot := Snapshot(adu, Top(live, cfg.snapshotInterval));
    LoadableAfter(store.snapshots, snapshot, cfg.maxSnapshots, cfg.loadSnapshots);
    var loaded := LastN(store.snapshots, cfg.loadSnapshots);
    var loaded' := LastN(loaded + [snapshot], Min(cfg.loadSnapshots, cfg.maxSnapshots));
    hide LastN;
    forall x | x in loaded' ensures x in loaded || x == snapshot {
      LastNWithin(loaded + [snapshot], Min(cfg.loadSnapshots, cfg.maxSnapshots), x);
    }
  }

  lemma LastNWithin<T>(s: seq<T>, n: nat, x: T)
    requires x in LastN(s, n)
    ensures x in s
  {
  }

  lemma {:induction false} CombinedSlots<V>(snapshots: seq<Snapshot<V>>, s: Slot)
    ensures s in Combine(snapshots) <==> exists i :: 0 <= i < |snapshots| && s in snapshots[i].entries
  {
    if snapshots != [] {
      CombinedSlots(snapshots[..|snapshots| - 1], s);
    }
  }

  lemma {:induction false} ReplayedSlots<V>(base: map<Slot, V>, changes: seq<Entry<V>>, s: Slot)
    ensures s in Replay(base, changes) <==> s in base || exists i :: 0 <= i < |changes| && changes[i].slot == s
  {
    if changes != [] {
      ReplayedSlots(base, changes[..|changes| - 1], s);
    }
  }

  lemma ReadableIsRestored<V>(cfg: StorageConfig, store: Store<V>)
    ensures Restore(cfg, store).Keys == Readable(cfg, store)
  {
    var loaded := LastN(store.snapshots, cfg.loadSnapshots);
    forall s: Slot ensures s in Restore(cfg, store) <==> s in Readable(cfg, store) {
      CombinedSlots(loaded, s);
      ReplayedSlots(Combine(loaded), store.changes, s);
    }
  }

  // the values that can be read

  /** A loadable snapshot or a change says that this slot holds this value. */
  ghost predicate Record<V>(cfg: StorageConfig, store: Store<V>, s: Slot, v: V) {
    Within(LastN(store.snapshots, cfg.loadSnapshots), s, v) || Entry(s, v) in store.changes
  }

  ghost predicate Within<V>(snapshots: seq<Snapshot<V>>, s: Slot, v: V) {
    exists x :: x in snapshots && s in x.entries && x.entries[s] == v
  }

  /** No two readable records of a slot differ. */
  ghost predicate Consistent<V(!new)>(cfg: StorageConfig, store: Store<V>) {
    forall s, u, v :: Record(cfg, store, s, u) && Record(cfg, store, s, v) ==> u == v
  }

  lemma {:induction false} CombinedWithin<V>(snapshots: seq<Snapshot<V>>, s: Slot)
    requires s in Combine(snapshots)
    ensures Within(snapshots, s, Combine(snapshots)[s])
  {
    var (init, last) := (snapshots[..|snapshots| - 1], snapshots[|snapshots| - 1]);
    assert last in snapshots;
    if s !in last.entries {
      CombinedWithin(init, s);
    }
  }

  lemma {:induction false} ReplayedFrom<V>(base: map<Slot, V>, changes: seq<Entry<V>>, s: Slot)
    requires s in Replay(base, changes)
    ensures var v := Replay(base, changes)[s]; Entry(s, v) in changes || (s in base && base[s] == v)
  {
    if changes != [] {
      var (init, last) := (changes[..|changes| - 1], changes[|changes| - 1]);
      assert last in changes;
      if s != last.slot {
        ReplayedFrom(base, init, s);
      }
    }
  }

  /** Whatever is restored was recorded. */
  lemma RestoredIsRecorded<V>(cfg: StorageConfig, store: Store<V>, s: Slot)
    requires s in Restore(cfg, store)
    ensures Record(cfg, store, s, Restore(cfg, store)[s])
  {
    hide LastN, Within;
    var loaded := LastN(store.snapshots, cfg.loadSnapshots);
    ReplayedFrom(Combine(loaded), store.changes, s);
    if s in Combine(loaded) {
      CombinedWithin(loaded, s);
    }
  }

  lemma RecordedIsReadable<V>(cfg: StorageConfig, store: Store<V>, s: Slot, v: V)
    requires Record(cfg, store, s, v)
    ensures s in Readable(cfg, store)
  {
    hide LastN;
  }

  lemma SaveRecords<V>(cfg: StorageConfig, store: Store<V>, e: Entry<V>, s: Slot, v: V)
    requires Record(cfg, SaveChange(cfg, store, e), s, v)
    ensures Record(cfg, store, s, v) || e == Entry(s, v)
  {
    hide LastN;
  }

  /** A checkpoint records nothing but what is in memory. */
  lemma SnapshotRecords<V>(cfg: StorageConfig, store: Store<V>, live: map<Slot, V>, slot: Slot, adu: Option<Slot>, s: Slot, v: V)
    requires cfg.Valid() && Record(cfg, MaybeSnapshot(cfg, store, live, slot, adu).0, s, v)
    ensures Record(cfg, store, s, v) || (s in live && live[s] == v)
  {
    hide LastN, StorageConfig.OnGrid;
    var snapshot := Snapshot(adu, Top(live, cfg.snapshotInterval));
    LoadableAfter(store.snapshots, snapshot, cfg.maxSnapshots, cfg.loadSnapshots);
    var loaded := LastN(store.snapshots, cfg.loadSnapshots);
    var loaded' := LastN(loaded + [snapshot], Min(cfg.loadSnapshots, cfg.maxSnapshots));
    forall x | x in loaded' ensures x in loaded || x == snapshot {
      LastNWithin(loaded + [snapshot], Min(cfg.loadSnapshots, cfg.maxSnapshots), x);
    }
  }

  /** Reading everything back gives the line from where its snapshots begin, over
      whatever the leftovers say; with leftovers the snapshots begin at slot 1. */
  lemma RestoreInStep<V(!new)>(cfg: StorageConfig, tagged: bool, line: Line<V>, store: Store<V>, live: map<Slot, V>)
      returns (base: map<Slot, V>)
    requires cfg.Valid() && InStep(cfg, tagged, line, store, live)
    ensures var from := Start(line.c, cfg.snapshotInterval, Own(cfg, line, store));
      && Restore(cfg, Reopened(store)) == base + Window(line.vals, from, |line.vals|)
      && (forall s :: s in base ==> 0 < s)
      && if line.left == [] && line.early == [] then base == map[] else from <= 0
  {
    hide Tail, Window, Tiles, Start, StorageConfig.OnGrid, Positive, Combine, Replay;
    var (vals, c, s, j) := (line.vals, line.c, cfg.snapshotInterval, Own(cfg, line, store));
    base := Replay(Combine(line.left), line.early);
    CombineConcat(line.left, Tiles(vals, tagged, c, s, j));
    TilesCombine(vals, tagged, c, s, j);
    LeftoverSlots(line.left, line.early);
    LoadableLength(cfg, store);
    if line.left == [] && line.early == [] {
      NothingRestored<V>();
    }
    if c == 0 {
      StartOfNothing(s);
      NoWindow(Combine(line.left), vals, 0);
      NoWindow(base, vals, 0);
      ReplayConcat(Combine(line.left), line.early, Tail(vals, 0));
      TailOverlays(base, vals, 0);
    } else {
      assert line.early + Tail(vals, c) == Tail(vals, c);
      NothingReplayed(Combine(line.left));
      TailOverlays(Combine(line.left) + Window(vals, Start(c, s, j), c), vals, c);
      Overlaid(base, vals, Start(c, s, j), c);
    }
  }

  lemma NothingRestored<V>()
    ensures Replay<V>(Combine<V>([]), []) == map[]
  {
  }

  lemma NothingReplayed<V>(base: map<Slot, V>)
    ensures Replay(base, []) == base
  {
  }

  lemma StartOfNothing(interval: nat)
    ensures Start(0, interval, 0) == 0
  {
  }

  lemma NoWindow<V>(base: map<Slot, V>, vals: seq<V>, c: nat)
    requires c <= |vals| < TWO_TO_THE_64
    ensures base + Window(vals, c, c) == base
  {
  }

  lemma LeftoverSlots<V>(left: seq<Snapshot<V>>, early: seq<Entry<V>>)
    requires Positive(left, early)
    ensures forall s :: s in Replay(Combine(left), early) ==> 0 < s
  {
    forall s | s in Replay(Combine(left), early) ensures 0 < s {
      CombinedSlots(left, s);
      ReplayedSlots(Combine(left), early, s);
    }
  }

  lemma Overlaid<V>(base: map<Slot, V>, vals: seq<V>, lo: int, mid: nat)
    requires lo <= mid <= |vals| < TWO_TO_THE_64
    ensures base + Window(vals, lo, mid) + Window(vals, mid, |vals|) == base + Window(vals, lo, |vals|)
  {
  }

  /** The disk gives back the live entries exactly when nothing readable lies above the
      newest slot in memory and the oldest slot in memory can be read: where both ends
      agree, every value between them does. */
  lemma RestoresExactly<V(!new)>(cfg: StorageConfig, tagged: bool, line: Line<V>, store: Store<V>, live: map<Slot, V>)
    requires cfg.Valid() && InStep(cfg, tagged, line, store, live)
    ensures Restore(cfg, Reopened(store)) == live <==>
      && (forall s :: s in Readable(cfg, store) ==> s <= |line.vals|)
      && (live.Keys != {} ==> MinOf(live.Keys) in Readable(cfg, store))
  {
    hide Restore, Readable, Start, Own, Tiles, Tail, StorageConfig.OnGrid, LastN, Positive;
    var base := RestoreInStep(cfg, tagged, line, store, live);
    ReadableIsRestored(cfg, Reopened(store));
    ReopenedReads(cfg, store);
    var (vals, lo, from) := (line.vals, line.lo, Start(line.c, cfg.snapshotInterval, Own(cfg, line, store)));
    BothEnds(base, vals, lo, from);
  }

  lemma BothEnds<V>(base: map<Slot, V>, vals: seq<V>, lo: int, from: int)
    requires |vals| < TWO_TO_THE_64 && (vals == [] || lo < |vals|)
    requires lo <= 0 || lo <= from
    requires base == map[] || (from <= 0 && forall s :: s in base ==> 0 < s)
    ensures var (live, disk) := (Window(vals, lo, |vals|), base + Window(vals, from, |vals|));
      disk == live <==>
        && (forall s :: s in disk ==> s <= |vals|)
        && (live.Keys != {} ==> MinOf(live.Keys) in disk)
  {
    var n := |vals|;
    var (live, disk) := (Window(vals, lo, n), base + Window(vals, from, n));
    if n > 0 {
      var first: Slot := Max(lo, 0) + 1;
      assert first in live.Keys && n in live.Keys;
      assert MinOf(live.Keys) == first;
    } else {
      assert live == map[];
    }
    if (forall s :: s in disk ==> s <= n) && (live.Keys != {} ==> MinOf(live.Keys) in disk) {
      if base == map[] {
        assert disk == Window(vals, from, n);
        if n > 0 { SameWindow(vals, lo, from, n); }
      } else {
        forall s | s in base ensures s in Window(vals, from, n) {
          assert s in disk;
        }
        assert disk == Window(vals, from, n);
        SameWindow(vals, lo, from, n);
      }
    }
  }

  lemma OldestIsThere<V>(base: map<Slot, V>, vals: seq<V>, lo: int, from: int)
    requires |vals| < TWO_TO_THE_64 && (from <= 0 || from <= lo)
    ensures var live := Window(vals, lo, |vals|);
      live.Keys != {} ==> MinOf(live.Keys) in base + Window(vals, from, |vals|)
  {
    var live := Window(vals, lo, |vals|);
    if live.Keys != {} {
      assert MinOf(live.Keys) in live;
    }
  }

  /** The oldest slot in memory can be read if there are leftovers, and also if as many
      snapshots are loaded as kept. */
  lemma OldestIsReadable<V(!new)>(cfg: StorageConfig, tagged: bool, line: Line<V>, store: Store<V>, live: map<Slot, V>)
    requires cfg.Valid() && InStep(cfg, tagged, line, store, live)
    requires line.left != [] || line.early != [] || cfg.maxSnapshots <= cfg.loadSnapshots
    ensures live.Keys != {} ==> MinOf(live.Keys) in Readable(cfg, store)
  {
    hide Restore, Readable, Tiles, Tail, StorageConfig.OnGrid, Positive, Start, LastN;
    var base := RestoreInStep(cfg, tagged, line, store, live);
    LoadableLength(cfg, store);
    ReadableIsRestored(cfg, Reopened(store));
    ReopenedReads(cfg, store);
    OldestIsThere(base, line.vals, line.lo, Start(line.c, cfg.snapshotInterval, Own(cfg, line, store)));
  }

  lemma ReopenedReads<V>(cfg: StorageConfig, store: Store<V>)
    ensures Readable(cfg, Reopened(store)) == Readable(cfg, store)
  {
  }

  /** The line as a restart that reads the disk finds it: the same slots, from where the
      loadable snapshots begin.  If nothing of it was loadable, the next line is empty. */
  function Reread<V>(cfg: StorageConfig, line: Line<V>, store: Store<V>): Line<V> {
    var from := Start(line.c, cfg.snapshotInterval, Max(0, Own(cfg, line, store)));
    if line.left != [] || line.early != [] then line
    else if |line.vals| <= from then Line([], 0, 0, [], [])
    else line.(lo := from)
  }

  lemma RereadKeepsStep<V(!new)>(cfg: StorageConfig, tagged: bool, line: Line<V>, store: Store<V>, live: map<Slot, V>)
    requires cfg.Valid() && InStep(cfg, tagged, line, store, live)
    requires forall s :: s in Readable(cfg, store) ==> s <= |line.vals|
    ensures InStep(cfg, tagged, Reread(cfg, line, store), Reopened(store), Restore(cfg, Reopened(store)))
  {
    hide Tiles, Tail, Restore, StorageConfig.OnGrid, Readable, Positive, Start;
    var base := RestoreInStep(cfg, tagged, line, store, live);
    var (vals, s, j, n) := (line.vals, cfg.snapshotInterval, Own(cfg, line, store), |line.vals|);
    if line.left != [] || line.early != [] {
      OldestIsReadable(cfg, tagged, line, store, live);
      RestoresExactly(cfg, tagged, line, store, live);
    } else {
      StartStrict(line.c, s, j, cfg.maxSnapshots);
      if n <= Start(line.c, s, j) {
        NothingLoaded(cfg, tagged, line, store, live);
      }
    }
  }

  lemma NothingLoaded<V(!new)>(cfg: StorageConfig, tagged: bool, line: Line<V>, store: Store<V>, live: map<Slot, V>)
    requires cfg.Valid() && InStep(cfg, tagged, line, store, live) && line.left == [] && line.early == []
    requires |line.vals| <= Start(line.c, cfg.snapshotInterval, Own(cfg, line, store))
    ensures InStep(cfg, tagged, Line([], 0, 0, [], []), Reopened(store), map[])
  {
    hide LastN, StorageConfig.OnGrid;
    var (s, j) := (cfg.snapshotInterval, Own(cfg, line, store));
    StartStrict(line.c, s, 0, j);
    StartStrict(0, s, 0, cfg.maxSnapshots);
    assert j == 0 && line.c == |line.vals|;
  }

  /** A restart that reads nothing begins a new line on top of everything loadable. */
  lemma ForgottenStartsAnew<V(!new)>(cfg: StorageConfig, tagged: bool, line: Line<V>, store: Store<V>, live: map<Slot, V>)
    requires cfg.Valid() && InStep(cfg, tagged, line, store, live)
    ensures InStep(cfg, tagged, Line([], 0, 0, LastN(store.snapshots, cfg.loadSnapshots), store.changes), Reopened(store), map[])
  {
    var (vals, c, s, j) := (line.vals, line.c, cfg.snapshotInterval, Own(cfg, line, store));
    TilesPositive(vals, tagged, c, s, j);
    StartStrict(0, s, 0, cfg.maxSnapshots);
    hide Start, StorageConfig.OnGrid, Tiles, LastN;
  }

  lemma {:induction false} TilesPositive<V>(vals: seq<V>, tagged: bool, c: int, interval: u64, k: nat)
    requires c <= |vals| < TWO_TO_THE_64
    ensures Positive(Tiles(vals, tagged, c, interval, k), [])
    decreases k
  {
    if k > 0 {
      TilesPositive(vals, tagged, c - interval, interval, k - 1);
    }
  }

  lemma EmptyInStep<V(!new)>(cfg: StorageConfig, tagged: bool)
    requires cfg.Valid()
    ensures InStep(cfg, tagged, Line([], 0, 0, [], []), EmptyStore<V>(), map[])
  {
    StartStrict(0, cfg.snapshotInterval, 0, cfg.maxSnapshots);
  }
}
