/** The records of the system's interface definition
    (paxos-wasm/shared/wit/types.wit) that the model uses. */
module PaxosTypes {
  import opened Prelude

  type Slot = u64
  type Ballot = u64
  type NodeId = u64

  datatype Role = Coordinator | Proposer | Acceptor | Learner | Client

  datatype Node = Node(nodeId: NodeId, address: string, role: Role)

  datatype Operation =
    | Get(key: string)
    | Set(key: string, value: string)
    | Remove(key: string)
    | Clear
    | Demo

  datatype CmdResult = NoOp | CmdValue(result: Option<string>)

  datatype Value = Value(command: Option<Operation>, clientId: string, clientSeq: u64)

  datatype PValue = PValue(slot: Slot, ballot: Ballot, value: Option<Value>)

  datatype Promise = Promise(slot: Slot, ballot: Ballot, accepted: seq<PValue>)

  datatype LearnedEntry = LearnedEntry(slot: Slot, value: Value)

  datatype ExecuteResult = ExecuteResult(value: Value, slot: Slot, success: bool, cmdResult: CmdResult)

  datatype Executed = Executed(results: seq<ExecuteResult>, adu: Slot)
}
