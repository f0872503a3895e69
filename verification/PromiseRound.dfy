/** The proposer agent's collection of promises
    (paxos-wasm/agents/proposer-agent/src/proposer-agent.rs). */
module PromiseRound {
  import opened Prelude
  import opened PaxosTypes
  import opened Quorum

  /** Promises by ballot, then by sender. */
  type Table = map<Ballot, map<NodeId, Promise>>

  function Insert(table: Table, promise: Promise, sender: NodeId): Table {
    var group := if promise.ballot in table then table[promise.ballot] else map[];
    table[promise.ballot := group[sender := promise]]
  }

  /** The values of a hash map, in some order. */
  ghost predicate Lists(group: map<NodeId, Promise>, list: seq<Promise>) {
    exists senders: seq<NodeId> :: ListsAs(group, list, senders)
  }

  ghost predicate ListsAs(group: map<NodeId, Promise>, list: seq<Promise>, senders: seq<NodeId>) {
    && |senders| == |list|
    && (forall i, j :: 0 <= i < j < |senders| ==> senders[i] != senders[j])
    && (forall n :: n in senders <==> n in group)
    && (forall i :: 0 <= i < |list| ==> senders[i] in group && list[i] == group[senders[i]])
  }

  /** Only the group of the highest ballot is looked at. */
  ghost predicate Reports(table: Table, quorum: nat, r: Option<(Ballot, seq<Promise>)>) {
    match r
    case None => table.Keys != {} ==> |table[MaxOf(table.Keys)]| < quorum
    case Some((ballot, list)) =>
      && table.Keys != {} && ballot == MaxOf(table.Keys)
      && |table[ballot]| >= quorum && Lists(table[ballot], list)
  }

  method Values(group: map<NodeId, Promise>) returns (list: seq<Promise>)
    ensures Lists(group, list)
  {
    list := [];
    ghost var senders: seq<NodeId> := [];
    var rest := group.Keys;
    while rest != {}
      invariant rest <= group.Keys
      invariant |senders| == |list|
      invariant forall i, j :: 0 <= i < j < |senders| ==> senders[i] != senders[j]
      invariant forall n :: n in senders <==> n in group && n !in rest
      invariant forall i :: 0 <= i < |list| ==> senders[i] in group && list[i] == group[senders[i]]
      decreases |rest|
    {
      var n :| n in rest;
      list := list + [group[n]];
      senders := senders + [n];
      rest := rest - {n};
    }
    assert ListsAs(group, list, senders);
  }

  method Check(promises: Table, quorum: nat) returns (r: Option<(Ballot, seq<Promise>)>)
    ensures Reports(promises, quorum, r)
  {
    if promises.Keys == {} {
      return None;
    }
    var highest: Ballot := MaxOf(promises.Keys);
    if |promises[highest]| >= quorum {
      var list := Values(promises[highest]);
      r := Some((highest, list));
    } else {
      r := None;
    }
  }

  // ----- what any sequence of promises makes of the table ------------------------------

  datatype Delivery = Delivery(promise: Promise, sender: NodeId)

  /** The table after these promises, from an empty one. */
  function Filed(received: seq<Delivery>): Table {
    if received == [] then map[]
    else Insert(Filed(received[..|received| - 1]), received[|received| - 1].promise, received[|received| - 1].sender)
  }

  /** The last promise for the ballot from the sender, told from what was received alone. */
  function LastPromise(received: seq<Delivery>, ballot: Ballot, sender: NodeId): Option<Promise> {
    if received == [] then None
    else
      var last := received[|received| - 1];
      if last.promise.ballot == ballot && last.sender == sender then Some(last.promise)
      else LastPromise(received[..|received| - 1], ballot, sender)
  }

  /** The distinct senders of promises for the ballot. */
  function Senders(received: seq<Delivery>, ballot: Ballot): set<NodeId> {
    set i | 0 <= i < |received| && received[i].promise.ballot == ballot :: received[i].sender
  }

  lemma {:induction false} LastPromiseIsLast(received: seq<Delivery>, ballot: Ballot, sender: NodeId)
    ensures LastPromise(received, ballot, sender).Some? <==> sender in Senders(received, ballot)
  {
    if received != [] {
      var init := received[..|received| - 1];
      LastPromiseIsLast(init, ballot, sender);
      SendersSnoc(received, ballot);
    }
  }

  lemma SendersSnoc(received: seq<Delivery>, ballot: Ballot)
    requires received != []
    ensures var (init, last) := (received[..|received| - 1], received[|received| - 1]);
      Senders(received, ballot) ==
        if last.promise.ballot == ballot then Senders(init, ballot) + {last.sender} else Senders(init, ballot)
  {
  }

  /** Under every ballot stands the last promise of each of its senders, and nothing else. */
  lemma {:induction false} FiledIsLast(received: seq<Delivery>, ballot: Ballot, sender: NodeId)
    ensures var table := Filed(received);
      && (ballot in table <==> Senders(received, ballot) != {})
      && (if ballot in table && sender in table[ballot] then Some(table[ballot][sender]) else None)
           == LastPromise(received, ballot, sender)
  {
    if received != [] {
      FiledIsLast(received[..|received| - 1], ballot, sender);
      SendersSnoc(received, ballot);
    }
  }

  lemma FiledSenders(received: seq<Delivery>, ballot: Ballot)
    ensures ballot in Filed(received) <==> Senders(received, ballot) != {}
    ensures ballot in Filed(received) ==> Filed(received)[ballot].Keys == Senders(received, ballot)
  {
    hide Filed, LastPromise, Senders;
    forall n: NodeId ensures ballot in Filed(received) ==> (n in Filed(received)[ballot] <==> n in Senders(received, ballot)) {
      FiledIsLast(received, ballot, n);
      LastPromiseIsLast(received, ballot, n);
    }
    FiledIsLast(received, ballot, 0);
  }

  ghost predicate HighestReceived(received: seq<Delivery>, ballot: Ballot) {
    && (exists d :: d in received && d.promise.ballot == ballot)
    && (forall d :: d in received ==> d.promise.ballot <= ballot)
  }

  /** The last promise of each distinct sender under the ballot, once each. */
  ghost predicate ListsLast(received: seq<Delivery>, ballot: Ballot, list: seq<Promise>, senders: seq<NodeId>) {
    && |senders| == |list|
    && (forall i, j :: 0 <= i < j < |senders| ==> senders[i] != senders[j])
    && (forall n :: n in senders <==> n in Senders(received, ballot))
    && (forall i :: 0 <= i < |list| ==> LastPromise(received, ballot, senders[i]) == Some(list[i]))
  }

  lemma HighestIsFiled(received: seq<Delivery>)
    requires received != []
    ensures Filed(received).Keys != {} && HighestReceived(received, MaxOf(Filed(received).Keys))
  {
    hide Filed;
    forall d | d in received ensures d.promise.ballot in Filed(received).Keys {
      var i :| 0 <= i < |received| && received[i] == d;
      assert received[i].sender in Senders(received, d.promise.ballot);
      FiledSenders(received, d.promise.ballot);
    }
    assert received[0] in received;
    FiledSenders(received, MaxOf(Filed(received).Keys));
    var n :| n in Senders(received, MaxOf(Filed(received).Keys));
    var i :| 0 <= i < |received| && received[i].promise.ballot == MaxOf(Filed(received).Keys);
    assert received[i] in received;
  }

  lemma GroupIsLast(received: seq<Delivery>, ballot: Ballot, group: map<NodeId, Promise>)
    requires ballot in Filed(received) && group == Filed(received)[ballot]
    ensures group.Keys == Senders(received, ballot)
    ensures forall n :: n in group ==> LastPromise(received, ballot, n) == Some(group[n])
  {
    hide Filed, LastPromise, Senders;
    FiledSenders(received, ballot);
    forall n | n in group ensures LastPromise(received, ballot, n) == Some(group[n]) {
      FiledIsLast(received, ballot, n);
    }
  }

  lemma ListedIsLast(received: seq<Delivery>, ballot: Ballot, list: seq<Promise>)
    requires ballot in Filed(received) && Lists(Filed(received)[ballot], list)
    ensures exists senders :: ListsLast(received, ballot, list, senders)
  {
    hide Filed, LastPromise, Senders;
    var group := Filed(received)[ballot];
    GroupIsLast(received, ballot, group);
    var senders :| ListsAs(group, list, senders);
    GroupListed(received, ballot, group, list, senders);
  }

  lemma GroupListed(received: seq<Delivery>, ballot: Ballot, group: map<NodeId, Promise>, list: seq<Promise>, senders: seq<NodeId>)
    requires ListsAs(group, list, senders) && group.Keys == Senders(received, ballot)
    requires forall n :: n in group ==> LastPromise(received, ballot, n) == Some(group[n])
    ensures ListsLast(received, ballot, list, senders)
  {
    hide LastPromise, Senders;
    forall n ensures n in senders <==> n in Senders(received, ballot) {
      assert n in group <==> n in group.Keys;
    }
    forall i | 0 <= i < |list| ensures LastPromise(received, ballot, senders[i]) == Some(list[i]) {
    }
  }

  /** For any promises received, in any order and with any repetition: a list is answered
      if and only if at least n/2+1 distinct senders promised the highest ballot received,
      and it has the last promise of each of them, once. */
  lemma RoundIsExact(received: seq<Delivery>, acceptors: nat, r: Option<(Ballot, seq<Promise>)>)
    requires Reports(Filed(received), QuorumSize(acceptors), r)
    ensures r.Some? <==>
      exists ballot :: HighestReceived(received, ballot) && |Senders(received, ballot)| >= acceptors / 2 + 1
    ensures r.Some? ==>
      && HighestReceived(received, r.value.0)
      && exists senders :: ListsLast(received, r.value.0, r.value.1, senders)
  {
    hide Filed, LastPromise, Senders, Lists, ListsLast;
    if received == [] {
      NothingFiled();
    } else {
      HighestIsFiled(received);
      var highest: Ballot := MaxOf(Filed(received).Keys);
      FiledSenders(received, highest);
      if r.Some? {
        ListedIsLast(received, highest, r.value.1);
      }
    }
  }

  lemma NothingFiled()
    ensures Filed([]) == map[]
  {
  }

  class PromiseBox {
    const numAcceptors: nat
    var promises: Table
    ghost var received: seq<Delivery>

    ghost predicate Valid()
      reads this
    {
      promises == Filed(received)
    }

    constructor (numAcceptors: nat)
      ensures Valid() && this.numAcceptors == numAcceptors && received == []
    {
      this.numAcceptors, promises, received := numAcceptors, map[], [];
    }

    method InsertAndCheckPromises(promise: Promise, sender: NodeId) returns (r: Option<(Ballot, seq<Promise>)>)
      requires Valid()
      modifies this
      ensures Valid() && received == old(received) + [Delivery(promise, sender)]
      ensures Reports(promises, QuorumSize(numAcceptors), r)
    {
      var group := if promise.ballot in promises then promises[promise.ballot] else map[];
      promises := promises[promise.ballot := group[sender := promise]];
      received := received + [Delivery(promise, sender)];
      r := Check(promises, QuorumSize(numAcceptors));
    }
  }
}
