/** The core acceptor (paxos-wasm/core/acceptor/src/acceptor.rs) and the agent
    that turns network messages into calls on it
    (paxos-wasm/agents/acceptor-agent/src/acceptor-agent.rs). */
module AcceptorCore {
  import opened Prelude
  import opened PaxosTypes
  import opened Journal

  datatype PromiseResult = Promised(promise: Promise) | PrepareRejected(highest: Ballot)

  datatype AcceptedResult = Accepted(slot: Slot, ballot: Ballot) | AcceptRejected(highest: Ballot)

  /** `savedPromises` is the whole-file copy of the promises on disk. */
  datatype AcceptorState = AcceptorState(
    promises: seq<Ballot>,
    accepted: map<Slot, PValue>,
    savedPromises: Option<seq<Ballot>>,
    store: Store<PValue>)

  function Fresh(): AcceptorState { AcceptorState([], map[], None, EmptyStore()) }

  function HighestPromised(promises: seq<Ballot>): Ballot {
    if promises == [] then 0 else promises[|promises| - 1]
  }

  function SlotsFrom(accepted: map<Slot, PValue>, slot: Slot): set<Slot> {
    set s | s in accepted && slot <= s
  }

  function CollectFrom(accepted: map<Slot, PValue>, slot: Slot): (r: seq<PValue>)
    ensures |r| == |SlotsFrom(accepted, slot)|
  {
    var keys := Sorted(SlotsFrom(accepted, slot));
    seq(|keys|, i requires 0 <= i < |keys| => assert keys[i] in keys; accepted[keys[i]])
  }

  /** A report lists every entry from the slot on, and nothing else. */
  lemma CollectFromReports(accepted: map<Slot, PValue>, slot: Slot, p: PValue)
    ensures p in CollectFrom(accepted, slot) <==> exists s :: s in accepted && slot <= s && accepted[s] == p
  {
    var keys := Sorted(SlotsFrom(accepted, slot));
    var r := CollectFrom(accepted, slot);
    if p in r {
      var i :| 0 <= i < |r| && r[i] == p;
      assert keys[i] in keys;
    }
    if exists s :: s in accepted && slot <= s && accepted[s] == p {
      var s :| s in accepted && slot <= s && accepted[s] == p;
      assert s in SlotsFrom(accepted, slot);
      assert s in keys;
      var i :| 0 <= i < |keys| && keys[i] == s;
      assert r[i] == p;
    }
  }

  /** Reports come in slot order, one entry a slot. */
  lemma CollectFromOrdered(accepted: map<Slot, PValue>, slot: Slot, i: nat, j: nat)
    requires forall s :: s in accepted ==> accepted[s].slot == s
    requires i < j < |CollectFrom(accepted, slot)|
    ensures CollectFrom(accepted, slot)[i].slot < CollectFrom(accepted, slot)[j].slot
  {
    var keys := Sorted(SlotsFrom(accepted, slot));
    assert keys[i] in keys && keys[j] in keys;
  }

  function Prepare(cfg: StorageConfig, st: AcceptorState, slot: Slot, ballot: Ballot): (AcceptorState, PromiseResult) {
    var highest := HighestPromised(st.promises);
    if ballot < highest then (st, PrepareRejected(highest))
    else
      var promises := if highest < ballot then st.promises + [ballot] else st.promises;
      var saved := if highest < ballot && cfg.enabled then Some(promises) else st.savedPromises;
      (st.(promises := promises, savedPromises := saved),
       Promised(Promise(slot, ballot, CollectFrom(st.accepted, slot))))
  }

  function Accept(cfg: StorageConfig, st: AcceptorState, slot: Slot, ballot: Ballot, value: Value)
    : (AcceptorState, AcceptedResult)
    requires cfg.Valid()
  {
    var highest := HighestPromised(st.promises);
    if ballot < highest then (st, AcceptRejected(highest))
    else if slot in st.accepted then
      if st.accepted[slot].value == Some(value) then (st, Accepted(slot, ballot))
      else (st, AcceptRejected(st.accepted[slot].ballot))
    else
      var p := PValue(slot, ballot, Some(value));
      var (store, accepted) :=
        MaybeSnapshot(cfg, SaveChange(cfg, st.store, Entry(slot, p)), st.accepted[slot := p], slot, None);
      (st.(accepted := accepted, store := store), Accepted(slot, ballot))
  }

  /** Startup.  A missing promise file is an error whose text ("No such file …")
      does not contain the lower-case phrase the code looks for, so nothing at all
      is restored. */
  function Load(cfg: StorageConfig, st: AcceptorState): (AcceptorState, Result<()>)
    requires cfg.Valid()
  {
    if !cfg.enabled then (st, Ok(()))
    else
      match st.savedPromises
      case None => (st, Err("storage.load_state promises: No such file or directory (os error 2)"))
      case Some(promises) => (st.(promises := promises, accepted := Restore(cfg, st.store)), Ok(()))
  }

  /** One accept leaves every stored entry as it is, adds at most its own, and
      answers Accepted only with the value that is then stored; pruning is the one
      exception, and it reaches no slot above `prunedTo`. */
  lemma AcceptFacts(cfg: StorageConfig, st: AcceptorState, slot: Slot, ballot: Ballot, value: Value)
    requires cfg.Valid()
    ensures var (st', r) := Accept(cfg, st, slot, ballot, value);
      && st'.promises == st.promises
      && st.store.prunedTo <= st'.store.prunedTo
      && (forall s :: s in st'.accepted ==>
            || (s in st.accepted && st'.accepted[s] == st.accepted[s])
            || (s == slot && st'.accepted[s] == PValue(slot, ballot, Some(value)) && HighestPromised(st.promises) <= ballot))
      && (forall s :: s in st.accepted && (!cfg.enabled || st'.store.prunedTo < s) ==>
            s in st'.accepted && st'.accepted[s] == st.accepted[s])
      && (r.Accepted? ==>
            && HighestPromised(st.promises) <= ballot
            && (!cfg.enabled || st'.store.prunedTo < slot ==>
                  slot in st'.accepted && st'.accepted[slot].value == Some(value)))
  {
    hide MaybeSnapshot;
    var p := PValue(slot, ballot, Some(value));
    MaybeSnapshotKeeps(cfg, SaveChange(cfg, st.store, Entry(slot, p)), st.accepted[slot := p], slot, None);
  }

  /** Another value stands in the slot. */
  predicate Conflicts(st: AcceptorState, slot: Slot, value: Value) {
    slot in st.accepted && st.accepted[slot].value != Some(value)
  }

  /** When an accept must be acknowledged: exactly if its ballot is not below the last
      promise and the slot holds no other value, whatever ballot stored it.  A refusal
      names the ballot in the way.  Only a first accept of a slot changes anything. */
  lemma AcceptIsExact(cfg: StorageConfig, st: AcceptorState, slot: Slot, ballot: Ballot, value: Value)
    requires cfg.Valid()
    ensures var (st', r) := Accept(cfg, st, slot, ballot, value);
      && (r == Accepted(slot, ballot) <==> HighestPromised(st.promises) <= ballot && !Conflicts(st, slot, value))
      && (ballot < HighestPromised(st.promises) ==> r == AcceptRejected(HighestPromised(st.promises)))
      && (HighestPromised(st.promises) <= ballot && Conflicts(st, slot, value) ==>
            r == AcceptRejected(st.accepted[slot].ballot))
      && (slot in st.accepted || !r.Accepted? ==> st' == st)
  {
  }

  /** A prepare is granted exactly if its ballot is not below the last promise, which is
      then its ballot, in memory and (with storage) on disk; a repeat changes nothing. */
  lemma PrepareIsExact(cfg: StorageConfig, st: AcceptorState, slot: Slot, ballot: Ballot)
    ensures var (st', r) := Prepare(cfg, st, slot, ballot);
      var highest := HighestPromised(st.promises);
      && (r.Promised? <==> highest <= ballot)
      && (r.Promised? ==>
            && r.promise.slot == slot && r.promise.ballot == ballot && HighestPromised(st'.promises) == ballot
            && forall p :: p in r.promise.accepted <==> exists s :: s in st.accepted && slot <= s && st.accepted[s] == p)
      && (r.PrepareRejected? ==> r.highest == highest)
      && (ballot <= highest ==> st' == st)
      && (highest < ballot ==>
            && st'.promises == st.promises + [ballot]
            && st'.savedPromises == (if cfg.enabled then Some(st'.promises) else st.savedPromises))
      && st'.accepted == st.accepted && st'.store == st.store
  {
    hide CollectFrom;
    forall p: PValue
      ensures p in CollectFrom(st.accepted, slot) <==> exists s :: s in st.accepted && slot <= s && st.accepted[s] == p
    {
      CollectFromReports(st.accepted, slot, p);
    }
  }

  /** With storage, a first accept is journaled, in whatever order slots come, before a
      snapshot may be taken of memory with it. */
  lemma FirstAcceptIsJournaled(cfg: StorageConfig, st: AcceptorState, slot: Slot, ballot: Ballot, value: Value)
    requires cfg.Valid() && HighestPromised(st.promises) <= ballot && slot !in st.accepted
    ensures var (p, st') := (PValue(slot, ballot, Some(value)), Accept(cfg, st, slot, ballot, value).0);
      var journaled := if cfg.enabled then st.store.(changes := st.store.changes + [Entry(slot, p)]) else st.store;
      (st'.store, st'.accepted) == MaybeSnapshot(cfg, journaled, st.accepted[slot := p], slot, None)
  {
  }

  /** Startup restores both parts exactly when there is a promise file, fails exactly when
      storage is on without one, and does nothing otherwise. */
  lemma LoadIsExact(cfg: StorageConfig, st: AcceptorState)
    requires cfg.Valid()
    ensures var (st', r) := Load(cfg, st);
      && (r.Err? <==> cfg.enabled && st.savedPromises == None)
      && st' == if cfg.enabled && st.savedPromises.Some?
                then st.(promises := st.savedPromises.value, accepted := Restore(cfg, st.store)) else st
  {
  }

  class MyAcceptor {
    const cfg: StorageConfig
    var promises: seq<Ballot>
    var accepted: map<Slot, PValue>
    var savedPromises: Option<seq<Ballot>>
    const storage: StorageHelper<PValue>

    ghost predicate Valid()
      reads this
    {
      cfg.Valid() && storage.cfg == cfg
    }

    ghost function State(): AcceptorState
      reads this, storage
    {
      AcceptorState(promises, accepted, savedPromises, storage.State())
    }

    /** A process starting on whatever the disk holds. */
    constructor (cfg: StorageConfig, saved: Option<seq<Ballot>>, snapshots: seq<Snapshot<PValue>>, changes: seq<Entry<PValue>>)
      requires cfg.Valid()
      ensures Valid() && this.cfg == cfg && fresh(storage)
      ensures State() == AcceptorState([], map[], saved, Store(0, 0, snapshots, changes))
    {
      this.cfg := cfg;
      promises, accepted, savedPromises := [], map[], saved;
      storage := new StorageHelper(cfg, snapshots, changes);
    }

    method CollectAcceptedFrom(slot: Slot) returns (r: seq<PValue>)
      ensures r == CollectFrom(accepted, slot)
    {
      var keys := Sorted(SlotsFrom(accepted, slot));
      r := [];
      for i := 0 to |keys|
        invariant r == CollectFrom(accepted, slot)[..i]
      {
        assert keys[i] in keys;
        r := r + [accepted[keys[i]]];
      }
    }

    method HandlePrepare(slot: Slot, ballot: Ballot) returns (r: PromiseResult)
      requires Valid()
      modifies this
      ensures Valid() && (State(), r) == Prepare(cfg, old(State()), slot, ballot)
    {
      var highest := HighestPromised(promises);
      if ballot < highest {
        return PrepareRejected(highest);
      }
      if ballot > highest {
        promises := promises + [ballot];
        if cfg.enabled {
          savedPromises := Some(promises);
        }
      }
      var report := CollectAcceptedFrom(slot);
      return Promised(Promise(slot, ballot, report));
    }

    method HandleAccept(slot: Slot, ballot: Ballot, value: Value) returns (r: AcceptedResult)
      requires Valid()
      modifies this, storage
      ensures Valid() && (State(), r) == Accept(cfg, old(State()), slot, ballot, value)
    {
      var highest := HighestPromised(promises);
      if ballot < highest {
        return AcceptRejected(highest);
      }
      if slot in accepted {
        var existing := accepted[slot];
        if existing.ballot == ballot && existing.value == Some(value) {
          return Accepted(slot, ballot);
        } else if existing.value == Some(value) {
          return Accepted(slot, ballot);
        } else {
          return AcceptRejected(existing.ballot);
        }
      }
      var p := PValue(slot, ballot, Some(value));
      storage.Save(Entry(slot, p));
      accepted := storage.Maybe(slot, accepted[slot := p], None);
      return Accepted(slot, ballot);
    }

    method LoadState() returns (r: Result<()>)
      requires Valid()
      modifies this
      ensures Valid() && (State(), r) == Load(cfg, old(State()))
    {
      if !cfg.enabled {
        return Ok(());
      }
      if savedPromises == None {
        return Err("storage.load_state promises: No such file or directory (os error 2)");
      }
      promises := savedPromises.value;
      accepted := storage.LoadEntries();
      return Ok(());
    }
  }
}

module AcceptorAgents {
  import opened Prelude
  import opened PaxosTypes
  import opened Journal
  import opened AcceptorCore

  /** What acceptors put on the network.  AcceptedMsg is the reply together with
      the value of the request it answers. */
  datatype Message =
    | PromiseMsg(from: NodeId, promise: Promise)
    | AcceptedMsg(from: NodeId, slot: Slot, ballot: Ballot, value: Value)
    | LearnMsg(from: NodeId, slot: Slot, value: Value)

  datatype Request =
    | PrepareReq(slot: Slot, ballot: Ballot)
    | AcceptReq(slot: Slot, ballot: Ballot, value: Value)
    | RetryReq(slots: seq<Slot>)

  const NOOP: Value := Value.Value(None, "", 0)

  /** The value voted for on a retry; a slot without an accepted value gets a
      no-op that the acceptor does not hold. */
  function RetryValue(accepted: map<Slot, PValue>, slot: Slot): Value {
    if slot in accepted && accepted[slot].value.Some? then accepted[slot].value.value else NOOP
  }

  function RetryVotes(me: NodeId, accepted: map<Slot, PValue>, slots: seq<Slot>): seq<Message> {
    seq(|slots|, i requires 0 <= i < |slots| => LearnMsg(me, slots[i], RetryValue(accepted, slots[i])))
  }

  /** Event-driven mode with acceptors sending the learns. */
  function Handle(cfg: StorageConfig, me: NodeId, st: AcceptorState, req: Request): (AcceptorState, seq<Message>)
    requires cfg.Valid()
  {
    match req
    case PrepareReq(slot, ballot) =>
      var (st', r) := Prepare(cfg, st, slot, ballot);
      (st', if r.Promised? then [PromiseMsg(me, r.promise)] else [])
    case AcceptReq(slot, ballot, value) =>
      var (st', r) := Accept(cfg, st, slot, ballot, value);
      (st', if r.Accepted? then [LearnMsg(me, slot, value), AcceptedMsg(me, slot, ballot, value)] else [])
    case RetryReq(slots) =>
      (st, RetryVotes(me, st.accepted, slots))
  }

  /** Every request is answered as it must be: a promise exactly for a granted prepare, with
      its report; a vote and an acknowledgement exactly for an accept not below the last
      promise and without conflict; a retry with one vote for each slot asked for, in order,
      for the stored value or else a no-op. */
  lemma AnswersAreExact(cfg: StorageConfig, me: NodeId, st: AcceptorState, req: Request)
    requires cfg.Valid()
    ensures var (st', sent) := Handle(cfg, me, st, req);
      match req
      case PrepareReq(slot, ballot) =>
        if ballot < HighestPromised(st.promises) then sent == [] && st' == st
        else
          && |sent| == 1 && sent[0].PromiseMsg? && sent[0].from == me
          && sent[0].promise.slot == slot && sent[0].promise.ballot == ballot && HighestPromised(st'.promises) == ballot
          && forall p :: p in sent[0].promise.accepted <==> exists s :: s in st.accepted && slot <= s && st.accepted[s] == p
      case AcceptReq(slot, ballot, value) =>
        if ballot < HighestPromised(st.promises) || Conflicts(st, slot, value) then sent == [] && st' == st
        else sent == [LearnMsg(me, slot, value), AcceptedMsg(me, slot, ballot, value)]
      case RetryReq(slots) =>
        && st' == st && |sent| == |slots|
        && forall i :: 0 <= i < |slots| ==>
             && sent[i].LearnMsg? && sent[i].from == me && sent[i].slot == slots[i]
             && (slots[i] in st.accepted && st.accepted[slots[i]].value.Some? ==>
                   Some(sent[i].value) == st.accepted[slots[i]].value)
             && (slots[i] !in st.accepted || st.accepted[slots[i]].value == None ==> sent[i].value == NOOP)
  {
    hide Prepare, Accept;
    match req
    case PrepareReq(slot, ballot) => PrepareIsExact(cfg, st, slot, ballot);
    case AcceptReq(slot, ballot, value) => AcceptIsExact(cfg, st, slot, ballot, value);
    case RetryReq(_) =>
  }

  class AcceptorAgent {
    const me: NodeId
    const acceptor: MyAcceptor
    var outbox: seq<Message>

    ghost predicate Valid()
      reads this, acceptor
    {
      acceptor.Valid()
    }

    constructor (me: NodeId, acceptor: MyAcceptor)
      requires acceptor.Valid()
      ensures Valid() && this.me == me && this.acceptor == acceptor && outbox == []
    {
      this.me, this.acceptor, outbox := me, acceptor, [];
    }

    method RetryLearns(slots: seq<Slot>)
      modifies this`outbox
      ensures outbox == old(outbox) + RetryVotes(me, acceptor.accepted, slots)
    {
      for i := 0 to |slots|
        invariant outbox == old(outbox) + RetryVotes(me, acceptor.accepted, slots)[..i]
      {
        outbox := outbox + [LearnMsg(me, slots[i], RetryValue(acceptor.accepted, slots[i]))];
      }
    }

    method HandleMessage(req: Request)
      requires Valid()
      modifies this`outbox, acceptor, acceptor.storage
      ensures Valid()
      ensures acceptor.State() == Handle(acceptor.cfg, me, old(acceptor.State()), req).0
      ensures outbox == old(outbox) + Handle(acceptor.cfg, me, old(acceptor.State()), req).1
    {
      match req
      case PrepareReq(slot, ballot) =>
        var r := acceptor.HandlePrepare(slot, ballot);
        if r.Promised? {
          outbox := outbox + [PromiseMsg(me, r.promise)];
        }
      case AcceptReq(slot, ballot, value) =>
        var r := acceptor.HandleAccept(slot, ballot, value);
        if r.Accepted? {
          outbox := outbox + [LearnMsg(me, slot, value), AcceptedMsg(me, slot, ballot, value)];
        }
      case RetryReq(slots) =>
        RetryLearns(slots);
    }
  }
}
