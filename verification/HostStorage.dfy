/** The host's disk for one storage key (paxos-wasm/runner-ws/src/host_storage.rs):
    a whole-file state, an append-only changelog, and rotated snapshot files. */
module HostStorage {
  import opened Prelude
  import opened Bytes

  /** Snapshot file names sort by their timestamps. */
  type Stamp = nat

  /** A changelog that does not exist reads like an empty one. */
  datatype Disk = Disk(current: Option<Blob>, changelog: Blob, snapshots: map<Stamp, Blob>)

  datatype Request =
    | SaveState(data: Blob)
    | SaveChange(data: Blob)
    | Checkpoint(data: Blob, stamp: Stamp, maxSnapshots: u64)

  function EmptyDisk(): Disk { Disk(None, [], map[]) }

  function Newest(snapshots: map<Stamp, Blob>, n: nat): (r: seq<Stamp>)
    ensures forall t :: t in r ==> t in snapshots
  {
    var all := Sorted(snapshots.Keys);
    assert forall t :: t in LastN(all, n) ==> t in all;
    LastN(all, n)
  }

  function PruneTo(snapshots: map<Stamp, Blob>, retain: u64): map<Stamp, Blob> {
    map t | t in snapshots && t in Newest(snapshots, retain) :: snapshots[t]
  }

  function Handle(disk: Disk, req: Request): Disk {
    match req
    case SaveState(data) => disk.(current := Some(data))
    case SaveChange(data) => disk.(changelog := disk.changelog + Frame(data))
    case Checkpoint(data, stamp, max) =>
      disk.(changelog := [], snapshots := PruneTo(disk.snapshots[stamp := data], max))
  }

  /** A cut-off length ends the log quietly, a cut-off body is an error. */
  function ReadRecords(b: Blob): Result<seq<Blob>> {
    if |b| < 4 then Ok([])
    else
      var len := FromBigEndian(b[..4]);
      if |b| < 4 + len then Err("early eof")
      else
        Prepend([b[4..4 + len]], ReadRecords(b[4 + len..]))
  }

  function Prepend(records: seq<Blob>, r: Result<seq<Blob>>): Result<seq<Blob>> {
    match r
    case Err(e) => Err(e)
    case Ok(rest) => Ok(records + rest)
  }

  function ReadAll(snapshots: map<Stamp, Blob>, names: seq<Stamp>): seq<Blob>
    requires forall t :: t in names ==> t in snapshots
  {
    seq(|names|, i requires 0 <= i < |names| => assert names[i] in names; snapshots[names[i]])
  }

  function Load(disk: Disk, n: u64): Result<(seq<Blob>, seq<Blob>)> {
    var snapshots := ReadAll(disk.snapshots, Newest(disk.snapshots, n));
    match ReadRecords(disk.changelog)
    case Err(e) => Err(e)
    case Ok(changes) => Ok((snapshots, changes))
  }

  /** The newest files are those with fewer than `n` files above them, in order. */
  lemma NewestIsExact(snapshots: map<Stamp, Blob>, n: u64, t: Stamp)
    ensures StrictlyIncreasing(Newest(snapshots, n))
    ensures t in Newest(snapshots, n) <==> t in snapshots && |Above(snapshots.Keys, t)| < n
    ensures t in PruneTo(snapshots, n) <==> t in snapshots && |Above(snapshots.Keys, t)| < n
    ensures t in PruneTo(snapshots, n) ==> PruneTo(snapshots, n)[t] == snapshots[t]
  {
    hide LastN, Above;
    var all := Sorted(snapshots.Keys);
    LastNIncreasing(all, n);
    if t in snapshots {
      var j :| 0 <= j < |all| && all[j] == t;
      RankInOrder(snapshots.Keys, all, j);
      NewestTail(all, n, j);
    }
  }

  lemma NewestTail(all: seq<Stamp>, n: nat, j: nat)
    requires StrictlyIncreasing(all) && j < |all|
    ensures all[j] in LastN(all, n) <==> |all| - 1 - j < n
  {
  }

  // ----- the disk as a log ---------------------------------------------------------

  function After(reqs: seq<Request>): Disk {
    if reqs == [] then EmptyDisk() else Handle(After(reqs[..|reqs| - 1]), reqs[|reqs| - 1])
  }

  function Stamps(reqs: seq<Request>): seq<Stamp> {
    if reqs == [] then []
    else if reqs[|reqs| - 1].Checkpoint? then Stamps(reqs[..|reqs| - 1]) + [reqs[|reqs| - 1].stamp]
    else Stamps(reqs[..|reqs| - 1])
  }

  /** All snapshots ever taken, oldest first. */
  function Taken(reqs: seq<Request>): (r: seq<Blob>)
    ensures |r| == |Stamps(reqs)|
  {
    if reqs == [] then []
    else if reqs[|reqs| - 1].Checkpoint? then Taken(reqs[..|reqs| - 1]) + [reqs[|reqs| - 1].data]
    else Taken(reqs[..|reqs| - 1])
  }

  /** The changes appended since the last checkpoint. */
  function Since(reqs: seq<Request>): seq<Blob> {
    if reqs == [] then []
    else
      match reqs[|reqs| - 1]
      case SaveState(_) => Since(reqs[..|reqs| - 1])
      case SaveChange(data) => Since(reqs[..|reqs| - 1]) + [data]
      case Checkpoint(_, _, _) => []
  }

  /** What the callers guarantee: one rotation size, timestamps that go up, changes
      under four gigabytes. */
  ghost predicate WellUsed(reqs: seq<Request>, max: u64) {
    && StrictlyIncreasing(Stamps(reqs))
    && (forall i :: 0 <= i < |reqs| && reqs[i].Checkpoint? ==> reqs[i].maxSnapshots == max)
    && (forall i :: 0 <= i < |reqs| && reqs[i].SaveChange? ==> |reqs[i].data| < TWO_TO_THE_32)
  }

  lemma RecordReadsBack(body: Blob, rest: Blob)
    requires |body| < TWO_TO_THE_32
    ensures ReadRecords(Frame(body) + rest) == Prepend([body], ReadRecords(rest))
  {
    FrameHeader(body, rest);
  }

  lemma PrependTwice(a: seq<Blob>, b: seq<Blob>, r: Result<seq<Blob>>)
    ensures Prepend(a, Prepend(b, r)) == Prepend(a + b, r)
    ensures Prepend([], r) == r
  {
    if r.Ok? {
      ConcatAssociative(a, b, r.value);
      assert [] + r.value == r.value;
    }
  }

  /** Reading is exact whatever follows the records. */
  lemma {:induction false} FramesReadBack(bodies: seq<Blob>, tail: Blob)
    requires Short(bodies)
    ensures ReadRecords(Frames(bodies) + tail) == Prepend(bodies, ReadRecords(tail))
    decreases |bodies|
  {
    hide ReadRecords, Frame;
    PrependTwice([], [], ReadRecords(tail));
    if bodies == [] {
      assert Frames(bodies) + tail == tail;
    } else {
      var (init, last) := (bodies[..|bodies| - 1], bodies[|bodies| - 1]);
      assert bodies == init + [last] && last in bodies;
      RecordReadsBack(last, tail);
      FramesReadBack(init, Frame(last) + tail);
      ConcatAssociative(Frames(init), Frame(last), tail);
      PrependTwice(init, [last], ReadRecords(tail));
    }
  }

  /** Whatever the changelog holds, what is read are its whole records, and what is left
      then is less than a length. */
  lemma {:induction false} OnlyRecordsAreRead(b: Blob) returns (tail: Blob)
    ensures match ReadRecords(b)
      case Ok(records) => Short(records) && b == Frames(records) + tail && |tail| < 4
      case Err(e) => e == "early eof"
    decreases |b|
  {
    hide Frame, FromBigEndian, ToBigEndian;
    if |b| < 4 {
      tail := b;
      assert Frames([]) + b == b;
    } else if |b| < 4 + FromBigEndian(b[..4]) {
      tail := [];
    } else {
      var len := FromBigEndian(b[..4]);
      var (body, rest) := (b[4..4 + len], b[4 + len..]);
      tail := OnlyRecordsAreRead(rest);
      if ReadRecords(rest).Ok? {
        RecordAtFront(b);
        FramesCons(body, ReadRecords(rest).value);
        ConcatAssociative(Frame(body), Frames(ReadRecords(rest).value), tail);
      }
    }
  }

  lemma RecordAtFront(b: Blob)
    requires |b| >= 4 && |b| >= 4 + FromBigEndian(b[..4])
    ensures var len := FromBigEndian(b[..4]); b == Frame(b[4..4 + len]) + b[4 + len..]
  {
    hide FromBigEndian, ToBigEndian;
    BigEndianIsOnto(b[..4]);
  }

  /** A changelog cut off inside a record: in its length, the records before it are read; in
      its body, nothing is. */
  lemma CutOffRecord(bodies: seq<Blob>, body: Blob, k: nat)
    requires Short(bodies + [body]) && k < 4 + |body|
    ensures ReadRecords(Frames(bodies) + Frame(body)[..k]) == if k < 4 then Ok(bodies) else Err("early eof")
  {
    hide FromBigEndian, ToBigEndian, Frames;
    assert Short(bodies) && body in bodies + [body];
    FramesReadBack(bodies, Frame(body)[..k]);
    FrameHeader(body, []);
    assert Frame(body) + [] == Frame(body);
    if 4 <= k {
      assert Frame(body)[..k][..4] == Frame(body)[..4];
    } else {
      assert bodies + [] == bodies;
    }
  }

  lemma RecordsReadBack(bodies: seq<Blob>)
    requires Short(bodies)
    ensures ReadRecords(Frames(bodies)) == Ok(bodies)
  {
    FramesReadBack(bodies, []);
    assert Frames(bodies) + [] == Frames(bodies) && bodies + [] == bodies;
  }

  /** The directory holds these files, in this order, with these contents. */
  ghost predicate Files(snapshots: map<Stamp, Blob>, names: seq<Stamp>, contents: seq<Blob>) {
    && |names| == |contents|
    && StrictlyIncreasing(names)
    && (forall t :: t in snapshots <==> t in names)
    && (forall i :: 0 <= i < |names| ==> names[i] in snapshots && snapshots[names[i]] == contents[i])
  }

  lemma FilesListed(snapshots: map<Stamp, Blob>, names: seq<Stamp>, contents: seq<Blob>, n: nat)
    requires Files(snapshots, names, contents)
    ensures Newest(snapshots, n) == LastN(names, n)
  {
    SortedUnique(snapshots.Keys, names);
  }

  lemma LastNAt<T>(s: seq<T>, n: nat, i: nat)
    requires i < |LastN(s, n)|
    ensures LastN(s, n)[i] == s[i + |s| - |LastN(s, n)|]
  {
  }

  lemma NewestFile(snapshots: map<Stamp, Blob>, names: seq<Stamp>, contents: seq<Blob>, n: nat, i: nat)
    requires Files(snapshots, names, contents) && i < |LastN(names, n)|
    ensures LastN(names, n)[i] in snapshots && snapshots[LastN(names, n)[i]] == LastN(contents, n)[i]
  {
    hide LastN, StrictlyIncreasing;
    LastNAt(names, n, i);
    LastNAt(contents, n, i);
  }

  lemma AddFile(snapshots: map<Stamp, Blob>, names: seq<Stamp>, contents: seq<Blob>, stamp: Stamp, data: Blob)
    requires Files(snapshots, names, contents) && StrictlyIncreasing(names + [stamp])
    ensures Files(snapshots[stamp := data], names + [stamp], contents + [data])
  {
    var names' := names + [stamp];
    forall i | 0 <= i < |names| ensures names[i] != stamp {
      assert names'[i] < names'[|names|];
    }
  }

  lemma PrunedKeys(snapshots: map<Stamp, Blob>, max: u64)
    ensures forall t :: t in PruneTo(snapshots, max) <==> t in Newest(snapshots, max)
    ensures forall t :: t in PruneTo(snapshots, max) ==> PruneTo(snapshots, max)[t] == snapshots[t]
  {
  }

  lemma PruneFiles(snapshots: map<Stamp, Blob>, names: seq<Stamp>, contents: seq<Blob>, max: u64)
    requires Files(snapshots, names, contents)
    ensures Files(PruneTo(snapshots, max), LastN(names, max), LastN(contents, max))
  {
    hide Newest, LastN, StrictlyIncreasing, PruneTo;
    FilesListed(snapshots, names, contents, max);
    LastNIncreasing(names, max);
    PrunedKeys(snapshots, max);
    var newest := LastN(names, max);
    forall i | 0 <= i < |newest|
      ensures newest[i] in PruneTo(snapshots, max) && PruneTo(snapshots, max)[newest[i]] == LastN(contents, max)[i]
    {
      NewestFile(snapshots, names, contents, max, i);
      assert newest[i] in newest;
    }
  }

  lemma FilesPaired(snapshots: map<Stamp, Blob>, names: seq<Stamp>, contents: seq<Blob>)
    requires Files(snapshots, names, contents)
    ensures |names| == |contents|
  {
  }

  lemma ReadFiles(snapshots: map<Stamp, Blob>, names: seq<Stamp>, contents: seq<Blob>, n: nat)
    requires Files(snapshots, names, contents)
    ensures ReadAll(snapshots, Newest(snapshots, n)) == LastN(contents, n)
  {
    hide Newest, LastN, Files, StrictlyIncreasing;
    FilesListed(snapshots, names, contents, n);
    FilesPaired(snapshots, names, contents);
    forall i | 0 <= i < |LastN(names, n)|
      ensures LastN(names, n)[i] in snapshots && snapshots[LastN(names, n)[i]] == LastN(contents, n)[i]
    {
      NewestFile(snapshots, names, contents, n, i);
    }
  }

  lemma LastNIncreasing(s: seq<nat>, n: nat)
    requires StrictlyIncreasing(s)
    ensures StrictlyIncreasing(LastN(s, n))
  {
  }

  ghost predicate Holds(disk: Disk, reqs: seq<Request>, max: u64) {
    && Files(disk.snapshots, LastN(Stamps(reqs), max), LastN(Taken(reqs), max))
    && disk.changelog == Frames(Since(reqs))
    && Short(Since(reqs))
  }

  lemma CheckpointHolds(snapshots: map<Stamp, Blob>, stamps: seq<Stamp>, taken: seq<Blob>, max: u64, data: Blob, stamp: Stamp)
    requires Files(snapshots, LastN(stamps, max), LastN(taken, max)) && StrictlyIncreasing(stamps + [stamp])
    ensures Files(PruneTo(snapshots[stamp := data], max), LastN(stamps + [stamp], max), LastN(taken + [data], max))
  {
    hide Files, LastN, PruneTo;
    LastNPlusOne(stamps, stamp, max);
    LastNIncreasing(stamps + [stamp], max + 1);
    AddFile(snapshots, LastN(stamps, max), LastN(taken, max), stamp, data);
    PruneFiles(snapshots[stamp := data], LastN(stamps, max) + [stamp], LastN(taken, max) + [data], max);
    LastNSnoc(stamps, stamp, max);
    LastNSnoc(taken, data, max);
  }

  lemma EarlierWellUsed(reqs: seq<Request>, max: u64)
    requires WellUsed(reqs, max) && reqs != []
    ensures WellUsed(reqs[..|reqs| - 1], max)
  {
    var init := reqs[..|reqs| - 1];
    assert forall i :: 0 <= i < |init| ==> init[i] == reqs[i];
    assert forall i :: 0 <= i < |Stamps(init)| ==> Stamps(init)[i] == Stamps(reqs)[i];
  }

  lemma {:induction false} RunHolds(reqs: seq<Request>, max: u64)
    requires WellUsed(reqs, max)
    ensures Holds(After(reqs), reqs, max)
  {
    if reqs != [] {
      var (init, last) := (reqs[..|reqs| - 1], reqs[|reqs| - 1]);
      EarlierWellUsed(reqs, max);
      assert last == reqs[|reqs| - 1];
      hide Files, PruneTo, LastN, StrictlyIncreasing, Frame;
      RunHolds(init, max);
      match last
      case SaveState(data) =>
      case SaveChange(data) =>
        assert (Since(init) + [data])[..|Since(init)|] == Since(init);
      case Checkpoint(data, stamp, _) =>
        CheckpointHolds(After(init).snapshots, Stamps(init), Taken(init), max, data, stamp);
    }
  }

  /** The disk log round trip: loading gives the changes appended since the last
      checkpoint, all of them, and the newest snapshots in order, as many as were
      taken, kept and asked for. */
  lemma DiskLogRoundTrip(reqs: seq<Request>, max: u64, load: u64)
    requires WellUsed(reqs, max)
    ensures Load(After(reqs), load) == Ok((LastN(Taken(reqs), Min(load, max)), Since(reqs)))
  {
    hide Files, WellUsed, Stamps, Taken, Since, After, ReadRecords, ReadAll, Newest, LastN, Frames, Short;
    RunHolds(reqs, max);
    RecordsReadBack(Since(reqs));
    ReadFiles(After(reqs).snapshots, LastN(Stamps(reqs), max), LastN(Taken(reqs), max), load);
    LastNTwice(Taken(reqs), max, load);
  }

  // ----- the object ----------------------------------------------------------------

  class Host {
    var current: Option<Blob>
    var changelog: Blob
    var snapshots: map<Stamp, Blob>

    ghost function State(): Disk
      reads this
    {
      Disk(current, changelog, snapshots)
    }

    constructor ()
      ensures State() == EmptyDisk()
    {
      current, changelog, snapshots := None, [], map[];
    }

    method HandleRequest(req: Request)
      modifies this
      ensures State() == Handle(old(State()), req)
    {
      match req
      case SaveState(data) =>
        current := Some(data);
      case SaveChange(data) =>
        changelog := changelog + ToBigEndian(|data| % TWO_TO_THE_32);
        changelog := changelog + data;
        assert changelog == old(changelog) + Frame(data);
      case Checkpoint(data, stamp, max) =>
        snapshots := snapshots[stamp := data];
        changelog := [];
        PruneSnapshots(max);
    }

    method PruneSnapshots(retain: u64)
      modifies this`snapshots
      ensures snapshots == PruneTo(old(snapshots), retain)
    {
      hide Sorted, Kept, StrictlyIncreasing, PruneTo, LastN;
      var files := Sorted(snapshots.Keys);
      ghost var (before, all, removed) := (snapshots, files, 0);
      NothingRemoved(snapshots);
      while |files| > retain
        invariant 0 <= removed <= |all| && files == all[removed..]
        invariant removed == 0 || retain <= |files|
        invariant Kept(before, snapshots, all, removed)
        decreases |files|
      {
        RemoveOldest(before, snapshots, all, removed);
        assert files[0] == all[removed] && files[1..] == all[removed + 1..];
        snapshots := snapshots - {files[0]};
        files := files[1..];
        removed := removed + 1;
      }
      OnlyNewestKept(before, snapshots, removed, retain);
    }

    method LoadStateAndChanges(n: u64) returns (r: Result<(seq<Blob>, seq<Blob>)>)
      ensures r == Load(State(), n)
    {
      hide Sorted;
      var selected := Newest(snapshots, n);
      var loaded := [];
      for i := 0 to |selected|
        invariant loaded == ReadAll(snapshots, selected)[..i]
      {
        assert selected[i] in selected;
        loaded := loaded + [snapshots[selected[i]]];
      }
      assert loaded == ReadAll(snapshots, selected);
      var changes := ReadChangelog(changelog);
      match changes
      case Err(e) => return Err(e);
      case Ok(c) => return Ok((loaded, c));
    }
  }

  ghost predicate Kept(before: map<Stamp, Blob>, now: map<Stamp, Blob>, all: seq<Stamp>, from: nat) {
    && from <= |all|
    && (forall t :: t in now <==> t in before && t in all[from..])
    && (forall t :: t in now ==> now[t] == before[t])
  }

  lemma NothingRemoved(snapshots: map<Stamp, Blob>)
    ensures Kept(snapshots, snapshots, Sorted(snapshots.Keys), 0)
  {
  }

  lemma OnlyNewestKept(before: map<Stamp, Blob>, now: map<Stamp, Blob>, removed: nat, retain: u64)
    requires var all := Sorted(before.Keys);
      Kept(before, now, all, removed) && removed + Min(retain, |all|) == |all|
    ensures now == PruneTo(before, retain)
  {
    hide Sorted, StrictlyIncreasing, PruneTo, Newest, Kept, LastN;
    var all := Sorted(before.Keys);
    LastNIsSuffix(all, retain);
    NewestAreLast(before, retain);
    KeptIsPruned(before, now, all, removed, retain);
  }

  lemma NewestAreLast(snapshots: map<Stamp, Blob>, n: nat)
    ensures Newest(snapshots, n) == LastN(Sorted(snapshots.Keys), n)
  {
  }

  lemma KeptIsPruned(before: map<Stamp, Blob>, now: map<Stamp, Blob>, all: seq<Stamp>, from: nat, retain: u64)
    requires Kept(before, now, all, from) && all[from..] == Newest(before, retain)
    ensures now == PruneTo(before, retain)
  {
    hide Newest;
    assert now.Keys == PruneTo(before, retain).Keys;
  }

  lemma LastNIsSuffix<T>(s: seq<T>, n: nat)
    ensures s[|s| - |LastN(s, n)|..] == LastN(s, n)
  {
  }

  lemma RemoveOldest(before: map<Stamp, Blob>, now: map<Stamp, Blob>, all: seq<Stamp>, from: nat)
    requires from < |all| && StrictlyIncreasing(all) && Kept(before, now, all, from)
    ensures Kept(before, now - {all[from]}, all, from + 1)
  {
  }

  method ReadChangelog(b: Blob) returns (r: Result<seq<Blob>>)
    ensures r == ReadRecords(b)
  {
    var changes: seq<Blob> := [];
    var offset := 0;
    assert b[0..] == b;
    PrependTwice([], [], ReadRecords(b));
    while true
      invariant 0 <= offset <= |b|
      invariant ReadRecords(b) == Prepend(changes, ReadRecords(b[offset..]))
      decreases |b| - offset
    {
      if |b| - offset < 4 {
        assert ReadRecords(b[offset..]) == Ok([]);
        assert changes + [] == changes;
        return Ok(changes);
      }
      var len := FromBigEndian(b[offset..offset + 4]);
      assert b[offset..][..4] == b[offset..offset + 4];
      if |b| - offset < 4 + len {
        return Err("early eof");
      }
      ghost var body := b[offset..][4..4 + len];
      assert body == b[offset + 4..offset + 4 + len];
      assert b[offset..][4 + len..] == b[offset + 4 + len..];
      PrependTwice(changes, [body], ReadRecords(b[offset + 4 + len..]));
      changes := changes + [b[offset + 4..offset + 4 + len]];
      offset := offset + 4 + len;
    }
  }
}
