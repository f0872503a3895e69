/** The replicated state machine (paxos-wasm/core/kv-store/src/kv-store.rs) and
    its run over a log. */
module KvMachine {
  import opened Prelude
  import opened PaxosTypes

  type Pairs = map<string, string>

  function Execute(store: Pairs, op: Operation): (Pairs, Option<string>) {
    match op
    case Get(key) => (store, if key in store then Some(store[key]) else None)
    case Set(key, value) => (store[key := value], None)
    case Remove(key) => (store - {key}, if key in store then Some(store[key]) else None)
    case Clear => (map[], None)
    case Demo => (store, Some("Demo"))
  }

  function Apply(store: Pairs, cmd: Option<Operation>): (Pairs, CmdResult) {
    match cmd
    case None => (store, NoOp)
    case Some(op) =>
      var (store', r) := Execute(store, op);
      (store', CmdValue(r))
  }

  function ResultOf(store: Pairs, e: LearnedEntry): ExecuteResult {
    var r := Apply(store, e.value.command).1;
    ExecuteResult(e.value, e.slot, r != NoOp, r)
  }

  /** The store after a log, starting empty. */
  function Run(log: seq<LearnedEntry>): Pairs {
    if log == [] then map[]
    else Apply(Run(log[..|log| - 1]), log[|log| - 1].value.command).0
  }

  function Results(log: seq<LearnedEntry>): (r: seq<ExecuteResult>)
    ensures |r| == |log|
  {
    if log == [] then []
    else
      var init := log[..|log| - 1];
      Results(init) + [ResultOf(Run(init), log[|log| - 1])]
  }

  /** Every result is its own command's, on the state all earlier slots left. */
  lemma {:induction false} ResultsAt(log: seq<LearnedEntry>, i: nat)
    requires i < |log|
    ensures Results(log)[i] == ResultOf(Run(log[..i]), log[i])
  {
    if i < |log| - 1 {
      var init := log[..|log| - 1];
      ResultsAt(init, i);
      assert init[..i] == log[..i];
    }
  }

  lemma ResultsSnoc(log: seq<LearnedEntry>, e: LearnedEntry)
    ensures Run(log + [e]) == Apply(Run(log), e.value.command).0
    ensures Results(log + [e]) == Results(log) + [ResultOf(Run(log), e)]
  {
  }

  /** Applying a batch to whatever state the store is in. */
  function ApplyAll(store: Pairs, batch: seq<LearnedEntry>): (Pairs, seq<ExecuteResult>) {
    if batch == [] then (store, [])
    else
      var (mid, results) := ApplyAll(store, batch[..|batch| - 1]);
      var last := batch[|batch| - 1];
      (Apply(mid, last.value.command).0, results + [ResultOf(mid, last)])
  }

  /** Batches may be cut anywhere: the log decides the state and the results. */
  lemma {:induction false} BatchExtendsRun(log: seq<LearnedEntry>, batch: seq<LearnedEntry>)
    ensures ApplyAll(Run(log), batch).0 == Run(log + batch)
    ensures Results(log) + ApplyAll(Run(log), batch).1 == Results(log + batch)
  {
    if batch == [] {
      assert log + batch == log;
    } else {
      var init := batch[..|batch| - 1];
      var last := batch[|batch| - 1];
      BatchExtendsRun(log, init);
      assert log + batch == (log + init) + [last];
      ResultsSnoc(log + init, last);
    }
  }

  // ----- what the log alone says of a key ------------------------------------------

  /** Walking the log back from its end: the value of the latest Set of the key, unless a
      Remove of it or a Clear comes first. */
  function LastWritten(log: seq<LearnedEntry>, key: string): Option<string> {
    if log == [] then None
    else
      var earlier := LastWritten(log[..|log| - 1], key);
      match log[|log| - 1].value.command
      case Some(Set(k, v)) => if k == key then Some(v) else earlier
      case Some(Remove(k)) => if k == key then None else earlier
      case Some(Clear) => None
      case _ => earlier
  }

  predicate Touches(cmd: Option<Operation>, key: string) {
    match cmd
    case Some(Set(k, _)) => k == key
    case Some(Remove(k)) => k == key
    case Some(Clear) => true
    case _ => false
  }

  /** The same said without a walk: some Set of the key to that value has nothing after it
      that touches the key. */
  lemma {:induction false} LastWrittenIs(log: seq<LearnedEntry>, key: string, v: string)
    ensures LastWritten(log, key) == Some(v) <==>
      exists i :: 0 <= i < |log| && log[i].value.command == Some(Set(key, v))
        && forall j :: i < j < |log| ==> !Touches(log[j].value.command, key)
  {
    if log != [] {
      var (init, last) := (log[..|log| - 1], log[|log| - 1].value.command);
      LastWrittenIs(init, key, v);
      if last == Some(Set(key, v)) {
        assert log[|log| - 1].value.command == Some(Set(key, v));
      } else if !Touches(last, key) && LastWritten(init, key) == Some(v) {
        var i :| 0 <= i < |init| && init[i].value.command == Some(Set(key, v))
          && forall j :: i < j < |init| ==> !Touches(init[j].value.command, key);
        assert log[i] == init[i];
        forall j | i < j < |log| ensures !Touches(log[j].value.command, key) {
          if j < |init| { assert log[j] == init[j]; }
        }
      }
    }
  }

  /** The store holds for every key what was last written to it, and nothing else. */
  lemma {:induction false} StoreHoldsLastWrites(log: seq<LearnedEntry>, key: string)
    ensures (if key in Run(log) then Some(Run(log)[key]) else None) == LastWritten(log, key)
  {
    if log != [] {
      StoreHoldsLastWrites(log[..|log| - 1], key);
    }
  }

  /** What a command answers, given the log before it. */
  function Answer(before: seq<LearnedEntry>, cmd: Option<Operation>): CmdResult {
    match cmd
    case None => NoOp
    case Some(Get(key)) => CmdValue(LastWritten(before, key))
    case Some(Remove(key)) => CmdValue(LastWritten(before, key))
    case Some(Demo) => CmdValue(Some("Demo"))
    case Some(_) => CmdValue(None)
  }

  /** Every result is the answer to its own command after the earlier slots; only a
      missing command fails. */
  lemma ResultsAnswerTheLog(log: seq<LearnedEntry>, i: nat)
    requires i < |log|
    ensures Results(log)[i] ==
      ExecuteResult(log[i].value, log[i].slot, log[i].value.command.Some?, Answer(log[..i], log[i].value.command))
  {
    ResultsAt(log, i);
    match log[i].value.command
    case Some(Get(key)) => StoreHoldsLastWrites(log[..i], key);
    case Some(Remove(key)) => StoreHoldsLastWrites(log[..i], key);
    case _ =>
  }

  class KvStore {
    var store: Pairs
    var history: seq<Option<Operation>>

    constructor ()
      ensures store == map[] && history == []
    {
      store, history := map[], [];
    }

    method ApplyCommand(cmd: Option<Operation>) returns (r: CmdResult)
      modifies this
      ensures (store, r) == Apply(old(store), cmd)
      ensures history == old(history) + [cmd]
    {
      history := history + [cmd];
      match cmd
      case None =>
        r := NoOp;
      case Some(Get(key)) =>
        r := CmdValue(if key in store then Some(store[key]) else None);
      case Some(Set(key, value)) =>
        store := store[key := value];
        r := CmdValue(None);
      case Some(Remove(key)) =>
        r := CmdValue(if key in store then Some(store[key]) else None);
        store := store - {key};
      case Some(Clear) =>
        store := map[];
        r := CmdValue(None);
      case Some(Demo) =>
        r := CmdValue(Some("Demo"));
    }
  }
}
