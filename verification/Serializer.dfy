/** The wire text of messages (paxos-wasm/runner-ws/src/host_serializer.rs): the
    printers, and the parsers as functions of the text. */
module Serializer {
  import opened Prelude
  import opened PaxosTypes
  import opened Text

  datatype Payload =
    | Ignore
    | ClientRequest(value: Value)
    | ClientResponse(clientId: string, clientSeq: u64, success: bool, result: CmdResult)
    | PrepareMsg(slot: Slot, ballot: Ballot)
    | PromiseMsg(promise: Promise)
    | AcceptMsg(slot: Slot, ballot: Ballot, value: Value)
    | AcceptedMsg(slot: Slot, ballot: Ballot, success: bool)
    | LearnMsg(slot: Slot, value: Value)
    | Heartbeat
    | RetryLearns(slots: seq<Slot>)
    | ExecutedMsg(executed: Executed)
    | Benchmark(sendTimestamp: u64, text: string)
    | Adu(slot: Slot)

  datatype NetworkMessage = NetworkMessage(sender: Node, payload: Payload)

  // ----- printing -------------------------------------------------------------------

  const NODE_KEYS: seq<string> := ["node_id", "address", "role"]
  const VALUE_KEYS: seq<string> := ["client_id", "client_seq", "op"]
  const RESPONSE_KEYS: seq<string> := ["client_id", "client_seq", "success", "result"]
  const PREPARE_KEYS: seq<string> := ["slot", "ballot"]
  const PROPOSAL_KEYS: seq<string> := ["slot", "ballot", "client_id", "client_seq", "op"]
  const ACCEPTED_KEYS: seq<string> := ["slot", "ballot", "success"]
  const LEARN_KEYS: seq<string> := ["slot", "client_id", "client_seq", "op"]
  const RESULT_KEYS: seq<string> := ["slot", "client_id", "client_seq", "op", "success", "result"]
  const ADU_KEYS: seq<string> := ["adu"]
  const BENCHMARK_KEYS: seq<string> := ["send_timestamp", "payload"]

  function RoleText(r: Role): string {
    match r
    case Proposer => "proposer"
    case Acceptor => "acceptor"
    case Learner => "learner"
    case Client => "client"
    case Coordinator => "coordinator"
  }

  function NodeText(n: Node): string { Join(Fields(NODE_KEYS, [Dec(n.nodeId), n.address, RoleText(n.role)]), ",") }

  function OpText(op: Operation): string {
    match op
    case Get(key) => "get(\"" + key + "\")"
    case Remove(key) => "remove(\"" + key + "\")"
    case Set(key, value) => "set(\"" + key + "\",\"" + value + "\")"
    case Clear => "clear"
    case Demo => "demo"
  }

  function CommandText(command: Option<Operation>): string {
    match command
    case None => "none"
    case Some(op) => OpText(op)
  }

  function ResultText(r: CmdResult): string {
    match r
    case NoOp => "no-op"
    case CmdValue(None) => "cmd-value:none"
    case CmdValue(Some(v)) => "cmd-value:" + v
  }

  function Tagged(tag: string, keys: seq<string>, values: seq<string>): string
    requires |keys| == |values|
  {
    Join([tag] + Fields(keys, values), ",")
  }

  function Bracketed(header: string, open: string, list: string): string { header + "," + open + (list + "]") }

  /** An entry without a value prints a stand-in client and no operation. */
  function EntryText(pv: PValue): string {
    match pv.value
    case Some(v) =>
      Join(Fields(PROPOSAL_KEYS, [Dec(pv.slot), Dec(pv.ballot), v.clientId, Dec(v.clientSeq), CommandText(v.command)]), ",")
    case None =>
      Join(Fields(PROPOSAL_KEYS, [Dec(pv.slot), Dec(pv.ballot), "unknown", Dec(0), "none"]), ",")
  }

  function ExecuteResultText(r: ExecuteResult): string {
    Join(Fields(RESULT_KEYS, [Dec(r.slot), r.value.clientId, Dec(r.value.clientSeq), CommandText(r.value.command),
                              BoolText(r.success), ResultText(r.cmdResult)]), ",")
  }

  function PayloadText(p: Payload): string {
    match p
    case Ignore => "ignore"
    case ClientRequest(v) => Tagged("client-request", VALUE_KEYS, [v.clientId, Dec(v.clientSeq), CommandText(v.command)])
    case ClientResponse(id, n, success, result) =>
      Tagged("client-response", RESPONSE_KEYS, [id, Dec(n), BoolText(success), ResultText(result)])
    case PrepareMsg(slot, ballot) => Tagged("prepare", PREPARE_KEYS, [Dec(slot), Dec(ballot)])
    case PromiseMsg(pr) =>
      var header := Tagged("promise", PREPARE_KEYS, [Dec(pr.slot), Dec(pr.ballot)]);
      if pr.accepted == [] then header
      else Bracketed(header, "accepted:[", Join(Map(EntryText, pr.accepted), "|"))
    case AcceptMsg(slot, ballot, v) =>
      Tagged("accept", PROPOSAL_KEYS, [Dec(slot), Dec(ballot), v.clientId, Dec(v.clientSeq), CommandText(v.command)])
    case AcceptedMsg(slot, ballot, success) => Tagged("accepted", ACCEPTED_KEYS, [Dec(slot), Dec(ballot), BoolText(success)])
    case LearnMsg(slot, v) =>
      Tagged("learn", LEARN_KEYS, [Dec(slot), v.clientId, Dec(v.clientSeq), CommandText(v.command)])
    case Heartbeat => "heartbeat"
    case RetryLearns(slots) => Join(["retry-learns", Field("slots", Join(Map(SlotText, slots), "|"))], ",")
    case ExecutedMsg(e) =>
      Bracketed(Tagged("executed", ADU_KEYS, [Dec(e.adu)]), "results:[", Join(Map(ExecuteResultText, e.results), "|"))
    case Benchmark(stamp, text) => Tagged("benchmark", BENCHMARK_KEYS, [Dec(stamp), text])
    case Adu(slot) => Join(["adu", Dec(slot)], ",")
  }

  function SlotText(slot: Slot): string { Dec(slot) }

  function MessageText(m: NetworkMessage): string {
    ("sender=" + NodeText(m.sender)) + "||" + ("payload=" + PayloadText(m.payload))
  }

  // ----- parsing ----------------------------------------------------------------------

  function Number(parts: seq<string>, key: string): Option<u64> {
    match LastField(parts, key)
    case None => None
    case Some(v) => ParseU64(v)
  }

  function Flag(parts: seq<string>, key: string): Option<bool> {
    match LastField(parts, key)
    case None => None
    case Some(v) => ParseBool(v)
  }

  function ParseRole(s: string): Option<Role> {
    if s == "proposer" then Some(Proposer)
    else if s == "acceptor" then Some(Acceptor)
    else if s == "learner" then Some(Learner)
    else if s == "client" then Some(Client)
    else if s == "coordinator" then Some(Coordinator)
    else None
  }

  /** Every role field must name a role, even one that is overwritten later. */
  predicate RolesKnown(parts: seq<string>) {
    forall i :: 0 <= i < |parts| && HasKey(parts[i], "role") ==> ParseRole(KeyValue(parts[i]).1.value).Some?
  }

  function ParseNode(s: string): Result<Node> {
    var parts := Split(s, ",");
    if !RolesKnown(parts) then Err("unknown role")
    else
      var (id, address, role) := (Number(parts, "node_id"), LastField(parts, "address"), LastField(parts, "role"));
      if id.Some? && address.Some? && role.Some? && ParseRole(role.value).Some?
      then Ok(Node(id.value, address.value, ParseRole(role.value).value))
      else Err("missing node_id, address, or role")
  }

  function Unwrap(s: string, prefix: string, suffix: string): Option<string> {
    match StripPrefix(s, prefix)
    case None => None
    case Some(rest) => StripSuffix(rest, suffix)
  }

  function ParseSet(s: string): Option<Operation> {
    match Unwrap(s, "set(", ")")
    case None => None
    case Some(inner) =>
      match Unwrap(inner, "\"", "\"")
      case None => None
      case Some(both) =>
        var parts := Split(both, "\",\"");
        if |parts| == 2 then Some(Set(parts[0], parts[1])) else None
  }

  function ParseOp(s: string): Result<Operation> {
    if s == "none" then Err("none")
    else if Unwrap(s, "get(\"", "\")").Some? then Ok(Get(Unwrap(s, "get(\"", "\")").value))
    else if Unwrap(s, "remove(\"", "\")").Some? then Ok(Remove(Unwrap(s, "remove(\"", "\")").value))
    else if ParseSet(s).Some? then Ok(ParseSet(s).value)
    else if s == "clear" then Ok(Clear)
    else if s == "demo" then Ok(Demo)
    else Err("unknown op")
  }

  function ParseCommand(s: string): Result<Option<Operation>> {
    if s == "none" then Ok(None)
    else
      match ParseOp(s)
      case Err(_) => Err("bad op")
      case Ok(op) => Ok(Some(op))
  }

  function ParseResult(s: string): Result<CmdResult> {
    if s == "no-op" then Ok(NoOp)
    else
      match StripPrefix(s, "cmd-value:")
      case None => Err("bad cmd-result")
      case Some(rest) => Ok(CmdValue(if rest == "none" then None else Some(rest)))
  }

  /** A value's three fields; `missing` is the error when one of them is absent. */
  function ParseValue(parts: seq<string>, missing: string): Result<Value> {
    var (id, n, op) := (LastField(parts, "client_id"), Number(parts, "client_seq"), LastField(parts, "op"));
    if id.Some? && n.Some? && op.Some? then
      match ParseCommand(op.value)
      case Err(e) => Err(e)
      case Ok(command) => Ok(Value.Value(command, id.value, n.value))
    else Err(missing)
  }

  function ParseClientRequest(parts: seq<string>): Result<Payload> {
    match ParseValue(parts, "bad client-request")
    case Err(e) => Err(e)
    case Ok(v) => Ok(ClientRequest(v))
  }

  function ParseClientResponse(parts: seq<string>): Result<Payload> {
    var (id, n) := (LastField(parts, "client_id"), Number(parts, "client_seq"));
    var (success, result) := (Flag(parts, "success"), LastField(parts, "result"));
    if id.Some? && n.Some? && success.Some? && result.Some? then
      match ParseResult(result.value)
      case Err(e) => Err(e)
      case Ok(r) => Ok(ClientResponse(id.value, n.value, success.value, r))
    else Err("bad client-response")
  }

  function ParsePrepare(parts: seq<string>): Result<Payload> {
    var (slot, ballot) := (Number(parts, "slot"), Number(parts, "ballot"));
    if slot.Some? && ballot.Some? then Ok(PrepareMsg(slot.value, ballot.value)) else Err("bad prepare")
  }

  function ParseAccept(parts: seq<string>): Result<Payload> {
    var (slot, ballot) := (Number(parts, "slot"), Number(parts, "ballot"));
    if slot == None || ballot == None then Err("bad accept")
    else
      match ParseValue(parts, "bad accept")
      case Err(e) => Err(e)
      case Ok(v) => Ok(AcceptMsg(slot.value, ballot.value, v))
  }

  function ParseAccepted(parts: seq<string>): Result<Payload> {
    var (slot, ballot, success) := (Number(parts, "slot"), Number(parts, "ballot"), Flag(parts, "success"));
    if slot.Some? && ballot.Some? && success.Some? then Ok(AcceptedMsg(slot.value, ballot.value, success.value))
    else Err("bad accepted")
  }

  function ParseLearn(parts: seq<string>): Result<Payload> {
    var slot := Number(parts, "slot");
    if slot == None then Err("bad learn")
    else
      match ParseValue(parts, "bad learn")
      case Err(e) => Err(e)
      case Ok(v) => Ok(LearnMsg(slot.value, v))
  }

  function ParseSlots(tokens: seq<string>): Result<seq<Slot>> {
    if tokens == [] then Ok([])
    else
      match ParseSlots(tokens[..|tokens| - 1])
      case Err(e) => Err(e)
      case Ok(slots) =>
        match ParseU64(tokens[|tokens| - 1])
        case None => Err("bad slot")
        case Some(slot) => Ok(slots + [slot])
  }

  function ParseRetryLearns(parts: seq<string>): Result<Payload> {
    if |parts| == 1 && StripPrefix(parts[0], "slots:").Some? then
      match ParseSlots(Split(StripPrefix(parts[0], "slots:").value, "|"))
      case Err(e) => Err(e)
      case Ok(slots) => Ok(RetryLearns(slots))
    else Err("bad retry-learns")
  }

  function ParseBenchmark(parts: seq<string>): Result<Payload> {
    var (stamp, text) := (Number(parts, "send_timestamp"), LastField(parts, "payload"));
    if stamp.Some? && text.Some? then Ok(Benchmark(stamp.value, text.value)) else Err("bad benchmark message")
  }

  function ParseAdu(parts: seq<string>): Result<Payload> {
    if |parts| != 1 then Err("bad adu payload")
    else
      match ParseU64(parts[0])
      case None => Err("invalid adu value")
      case Some(slot) => Ok(Adu(slot))
  }

  /** The text before an opening marker, and what stands between it and the next
      closing bracket. */
  function CutList(s: string, open: string, malformed: string): Result<(string, Option<string>)>
    requires open != ""
  {
    match Find(s, open)
    case None => Ok((s, None))
    case Some(start) =>
      var inner := s[start + |open|..];
      match Find(inner, "]")
      case None => Err(malformed)
      case Some(end) => Ok((s[..start], Some(inner[..end])))
  }

  /** Entries that lack a field are skipped; the first bad one is the error. */
  function ParseList<T>(parse: string -> Result<Option<T>>, entries: seq<string>): Result<seq<T>> {
    if entries == [] then Ok([])
    else
      match ParseList(parse, entries[..|entries| - 1])
      case Err(e) => Err(e)
      case Ok(items) =>
        match parse(entries[|entries| - 1])
        case Err(e) => Err(e)
        case Ok(None) => Ok(items)
        case Ok(Some(item)) => Ok(items + [item])
  }

  function ParseEntry(entry: string): Result<Option<PValue>> {
    var parts := Split(entry, ",");
    var (slot, ballot) := (Number(parts, "slot"), Number(parts, "ballot"));
    var (id, n, op) := (LastField(parts, "client_id"), Number(parts, "client_seq"), LastField(parts, "op"));
    if slot.Some? && ballot.Some? && id.Some? && n.Some? && op.Some? then
      if op.value == "none" then Ok(Some(PValue(slot.value, ballot.value, None)))
      else
        match ParseOp(op.value)
        case Err(_) => Err("bad op in promise.accepted")
        case Ok(o) => Ok(Some(PValue(slot.value, ballot.value, Some(Value.Value(Some(o), id.value, n.value)))))
    else Ok(None)
  }

  function ParseExecuteResult(entry: string): Result<Option<ExecuteResult>> {
    var parts := Split(entry, ",");
    var (slot, id, n) := (Number(parts, "slot"), LastField(parts, "client_id"), Number(parts, "client_seq"));
    var (op, success, result) := (LastField(parts, "op"), Flag(parts, "success"), LastField(parts, "result"));
    if slot.Some? && id.Some? && n.Some? && op.Some? && success.Some? && result.Some? then
      match ParseCommand(op.value)
      case Err(e) => Err(e)
      case Ok(command) =>
        match ParseResult(result.value)
        case Err(e) => Err(e)
        case Ok(r) => Ok(Some(ExecuteResult(Value.Value(command, id.value, n.value), slot.value, success.value, r)))
    else Ok(None)
  }

  function ParseBody<T>(parse: string -> Result<Option<T>>, list: Option<string>): Result<seq<T>> {
    match list
    case None => Ok([])
    case Some(text) => ParseList(parse, Split(text, "|"))
  }

  function ParsePromise(s: string): Result<Payload> {
    match CutList(s, "accepted:[", "malformed promise accepted list")
    case Err(e) => Err(e)
    case Ok((header, list)) =>
      var parts := Split(header, ",")[1..];
      match ParseBody(ParseEntry, list)
      case Err(e) => Err(e)
      case Ok(accepted) =>
        var (slot, ballot) := (Number(parts, "slot"), Number(parts, "ballot"));
        if slot.Some? && ballot.Some? then Ok(PromiseMsg(Promise(slot.value, ballot.value, accepted)))
        else Err("bad promise")
  }

  function ParseExecuted(s: string): Result<Payload> {
    match CutList(s, "results:[", "malformed executed results list")
    case Err(e) => Err(e)
    case Ok((header, list)) =>
      var parts := Split(header, ",")[1..];
      match ParseBody(ParseExecuteResult, list)
      case Err(e) => Err(e)
      case Ok(results) =>
        var adu := Number(parts, "adu");
        if adu.Some? then Ok(ExecutedMsg(Executed(results, adu.value))) else Err("bad executed payload")
  }

  datatype Kind =
    | KIgnore | KClientRequest | KClientResponse | KPrepare | KPromise | KAccept | KAccepted
    | KLearn | KHeartbeat | KRetryLearns | KExecuted | KBenchmark | KAdu

  function KindOf(tag: string): Option<Kind> {
    if tag == "ignore" then Some(KIgnore)
    else if tag == "client-request" then Some(KClientRequest)
    else if tag == "client-response" then Some(KClientResponse)
    else if tag == "prepare" then Some(KPrepare)
    else if tag == "promise" then Some(KPromise)
    else if tag == "accept" then Some(KAccept)
    else if tag == "accepted" then Some(KAccepted)
    else if tag == "learn" then Some(KLearn)
    else if tag == "heartbeat" then Some(KHeartbeat)
    else if tag == "retry-learns" then Some(KRetryLearns)
    else if tag == "executed" then Some(KExecuted)
    else if tag == "benchmark" then Some(KBenchmark)
    else if tag == "adu" then Some(KAdu)
    else None
  }

  function ParsePayload(s: string): Result<Payload> {
    var parts := Split(s, ",");
    var fields := parts[1..];
    match KindOf(parts[0])
    case None => Err("unknown payload")
    case Some(KIgnore) => Ok(Ignore)
    case Some(KClientRequest) => ParseClientRequest(fields)
    case Some(KClientResponse) => ParseClientResponse(fields)
    case Some(KPrepare) => ParsePrepare(fields)
    case Some(KPromise) => ParsePromise(s)
    case Some(KAccept) => ParseAccept(fields)
    case Some(KAccepted) => ParseAccepted(fields)
    case Some(KLearn) => ParseLearn(fields)
    case Some(KHeartbeat) => Ok(Heartbeat)
    case Some(KRetryLearns) => ParseRetryLearns(fields)
    case Some(KExecuted) => ParseExecuted(s)
    case Some(KBenchmark) => ParseBenchmark(fields)
    case Some(KAdu) => ParseAdu(fields)
  }

  function ParseMessage(s: string): Result<NetworkMessage> {
    var parts := Split(s, "||");
    if |parts| != 2 then Err("Invalid serialized message format")
    else
      match StripPrefix(parts[0], "sender=")
      case None => Err("Missing sender prefix")
      case Some(sender) =>
        match StripPrefix(parts[1], "payload=")
        case None => Err("Missing payload prefix")
        case Some(payload) =>
          match ParseNode(sender)
          case Err(_) => Err("Failed to deserialize node")
          case Ok(n) =>
            match ParsePayload(payload)
            case Err(e) => Err("Failed to deserialize payload: " + e)
            case Ok(p) => Ok(NetworkMessage(n, p))
  }
}
