/** The parsers of paxos-wasm/runner-ws/src/host_serializer.rs as the loops they are,
    each proved equal to its function of the text. */
module Deserializer {
  import opened Prelude
  import opened PaxosTypes
  import opened Text
  import opened Serializer

  lemma LastFieldSnoc(parts: seq<string>, i: nat, key: string)
    requires i < |parts|
    ensures LastField(parts[..i + 1], key) ==
      if HasKey(parts[i], key) then KeyValue(parts[i]).1 else LastField(parts[..i], key)
  {
    assert parts[..i + 1][..i] == parts[..i];
  }

  /** The mutable options of the parsing loops. */
  datatype Record = Record(
    slot: Option<u64>, ballot: Option<u64>, adu: Option<u64>, clientId: Option<string>, clientSeq: Option<u64>,
    op: Option<string>, success: Option<bool>, result: Option<string>, stamp: Option<u64>, text: Option<string>)

  function RecordOf(parts: seq<string>): Record {
    Record(Number(parts, "slot"), Number(parts, "ballot"), Number(parts, "adu"), LastField(parts, "client_id"),
           Number(parts, "client_seq"), LastField(parts, "op"), Flag(parts, "success"), LastField(parts, "result"),
           Number(parts, "send_timestamp"), LastField(parts, "payload"))
  }

  /** One assignment of the loop body: the first matching key takes the value. */
  function Assign(r: Record, key: string, v: string): Record {
    if key == "slot" then r.(slot := ParseU64(v))
    else if key == "ballot" then r.(ballot := ParseU64(v))
    else if key == "adu" then r.(adu := ParseU64(v))
    else if key == "client_id" then r.(clientId := Some(v))
    else if key == "client_seq" then r.(clientSeq := ParseU64(v))
    else if key == "op" then r.(op := Some(v))
    else if key == "success" then r.(success := ParseBool(v))
    else if key == "result" then r.(result := Some(v))
    else if key == "send_timestamp" then r.(stamp := ParseU64(v))
    else if key == "payload" then r.(text := Some(v))
    else r
  }

  lemma AssignTracks(parts: seq<string>, i: nat)
    requires i < |parts|
    ensures var (key, v) := KeyValue(parts[i]);
      RecordOf(parts[..i + 1]) == if v.Some? then Assign(RecordOf(parts[..i]), key, v.value) else RecordOf(parts[..i])
  {
    hide LastField, KeyValue, ParseU64, ParseBool;
    LastFieldSnoc(parts, i, "slot");
    LastFieldSnoc(parts, i, "ballot");
    LastFieldSnoc(parts, i, "adu");
    LastFieldSnoc(parts, i, "client_id");
    LastFieldSnoc(parts, i, "client_seq");
    LastFieldSnoc(parts, i, "op");
    LastFieldSnoc(parts, i, "success");
    LastFieldSnoc(parts, i, "result");
    LastFieldSnoc(parts, i, "send_timestamp");
    LastFieldSnoc(parts, i, "payload");
  }

  /** Reads the fields left to right; a later one overwrites an earlier one. */
  method ScanFields(parts: seq<string>) returns (r: Record)
    ensures r == RecordOf(parts)
  {
    hide LastField, ParseU64, ParseBool, KeyValue;
    r := Record(None, None, None, None, None, None, None, None, None, None);
    NoFields();
    var i := 0;
    while i < |parts|
      invariant 0 <= i <= |parts|
      invariant r == RecordOf(parts[..i])
    {
      var (key, v) := KeyValue(parts[i]);
      AssignTracks(parts, i);
      if v.Some? {
        r := Assign(r, key, v.value);
      }
      i := i + 1;
    }
    assert parts[..|parts|] == parts;
  }

  lemma NoFields()
    ensures RecordOf([]) == Record(None, None, None, None, None, None, None, None, None, None)
  {
  }

  // ----- nodes ----------------------------------------------------------------------------

  /** The node loop: an unknown role ends it at once, whatever comes later. */
  method DeserializeNode(s: string) returns (r: Result<Node>)
    ensures r == ParseNode(s)
  {
    hide ParseU64, KeyValue, LastField, Split;
    var parts := Split(s, ",");
    var id: Option<u64>, address: Option<string>, role: Option<Role> := None, None, None;
    assert LastField([], "node_id") == None && LastField([], "address") == None && LastField([], "role") == None by {
      NodeStarts();
    }
    var i := 0;
    while i < |parts|
      invariant 0 <= i <= |parts|
      invariant id == Number(parts[..i], "node_id") && address == LastField(parts[..i], "address")
      invariant role == match LastField(parts[..i], "role") case None => None case Some(v) => ParseRole(v)
      invariant RolesKnown(parts[..i])
    {
      var (key, v) := KeyValue(parts[i]);
      LastFieldSnoc(parts, i, "node_id");
      LastFieldSnoc(parts, i, "address");
      LastFieldSnoc(parts, i, "role");
      if v.Some? {
        if key == "node_id" {
          id := ParseU64(v.value);
        } else if key == "address" {
          address := Some(v.value);
        } else if key == "role" {
          role := ParseRole(v.value);
          if role == None {
            assert HasKey(parts[i], "role");
            return Err("unknown role");
          }
        }
      }
      i := i + 1;
    }
    assert parts[..|parts|] == parts;
    if id.Some? && address.Some? && role.Some? {
      r := Ok(Node(id.value, address.value, role.value));
    } else {
      r := Err("missing node_id, address, or role");
    }
  }

  lemma NodeStarts()
    ensures LastField([], "node_id") == None && LastField([], "address") == None && LastField([], "role") == None
  {
  }

  // ----- lists ----------------------------------------------------------------------------

  method DeserializeSlots(list: string) returns (r: Result<seq<Slot>>)
    ensures r == ParseSlots(Split(list, "|"))
  {
    hide Split, ParseU64;
    var tokens := Split(list, "|");
    var slots: seq<Slot> := [];
    var i := 0;
    while i < |tokens|
      invariant 0 <= i <= |tokens|
      invariant ParseSlots(tokens[..i]) == Ok(slots)
    {
      assert tokens[..i + 1][..i] == tokens[..i];
      var slot := ParseU64(tokens[i]);
      if slot == None {
        SlotsFail(tokens, i + 1);
        return Err("bad slot");
      }
      slots := slots + [slot.value];
      i := i + 1;
    }
    assert tokens[..|tokens|] == tokens;
    r := Ok(slots);
  }

  lemma {:induction false} SlotsFail(tokens: seq<string>, n: nat)
    requires n <= |tokens| && ParseSlots(tokens[..n]).Err?
    ensures ParseSlots(tokens) == ParseSlots(tokens[..n])
    decreases |tokens|
  {
    if n == |tokens| {
      assert tokens[..n] == tokens;
    } else {
      assert tokens[..|tokens| - 1][..n] == tokens[..n];
      SlotsFail(tokens[..|tokens| - 1], n);
    }
  }

  lemma {:induction false} ListFails<T>(parse: string -> Result<Option<T>>, entries: seq<string>, n: nat)
    requires n <= |entries| && ParseList(parse, entries[..n]).Err?
    ensures ParseList(parse, entries) == ParseList(parse, entries[..n])
    decreases |entries|
  {
    if n == |entries| {
      assert entries[..n] == entries;
    } else {
      assert entries[..|entries| - 1][..n] == entries[..n];
      ListFails(parse, entries[..|entries| - 1], n);
    }
  }

  /** One promise entry: its own field loop, then the operation. */
  method DeserializeEntry(entry: string) returns (r: Result<Option<PValue>>)
    ensures r == ParseEntry(entry)
  {
    hide ParseOp, LastField, ParseU64, ParseBool, Split;
    var f := ScanFields(Split(entry, ","));
    if f.slot.Some? && f.ballot.Some? && f.clientId.Some? && f.clientSeq.Some? && f.op.Some? {
      var value := None;
      if f.op.value != "none" {
        var op := ParseOp(f.op.value);
        if op.Err? {
          return Err("bad op in promise.accepted");
        }
        value := Some(Value.Value(Some(op.value), f.clientId.value, f.clientSeq.value));
      }
      r := Ok(Some(PValue(f.slot.value, f.ballot.value, value)));
    } else {
      r := Ok(None);
    }
  }

  method DeserializeEntries(list: string) returns (r: Result<seq<PValue>>)
    ensures r == ParseList(ParseEntry, Split(list, "|"))
  {
    hide Split, ParseEntry;
    var entries := Split(list, "|");
    var accepted: seq<PValue> := [];
    var i := 0;
    while i < |entries|
      invariant 0 <= i <= |entries|
      invariant ParseList(ParseEntry, entries[..i]) == Ok(accepted)
    {
      assert entries[..i + 1][..i] == entries[..i];
      var entry := DeserializeEntry(entries[i]);
      match entry {
        case Err(e) =>
          ListFails(ParseEntry, entries, i + 1);
          return Err(e);
        case Ok(None) =>
        case Ok(Some(pv)) => accepted := accepted + [pv];
      }
      i := i + 1;
    }
    assert entries[..|entries|] == entries;
    r := Ok(accepted);
  }

  method DeserializeCommand(op: string) returns (r: Result<Option<Operation>>)
    ensures r == ParseCommand(op)
  {
    hide ParseOp;
    if op == "none" {
      return Ok(None);
    }
    var o := ParseOp(op);
    r := match o case Err(_) => Err("bad op") case Ok(v) => Ok(Some(v));
  }

  method DeserializeExecuteResult(entry: string) returns (r: Result<Option<ExecuteResult>>)
    ensures r == ParseExecuteResult(entry)
  {
    hide ParseCommand, LastField, ParseU64, ParseBool, Split, ParseResult;
    var f := ScanFields(Split(entry, ","));
    if f.slot.Some? && f.clientId.Some? && f.clientSeq.Some? && f.op.Some? && f.success.Some? && f.result.Some? {
      var command := DeserializeCommand(f.op.value);
      if command.Err? {
        return Err(command.error);
      }
      var result := ParseResult(f.result.value);
      if result.Err? {
        return Err(result.error);
      }
      var value := Value.Value(command.value, f.clientId.value, f.clientSeq.value);
      r := Ok(Some(ExecuteResult(value, f.slot.value, f.success.value, result.value)));
    } else {
      r := Ok(None);
    }
  }

  method DeserializeResults(list: string) returns (r: Result<seq<ExecuteResult>>)
    ensures r == ParseList(ParseExecuteResult, Split(list, "|"))
  {
    hide Split, ParseExecuteResult;
    var entries := Split(list, "|");
    var results: seq<ExecuteResult> := [];
    var i := 0;
    while i < |entries|
      invariant 0 <= i <= |entries|
      invariant ParseList(ParseExecuteResult, entries[..i]) == Ok(results)
    {
      assert entries[..i + 1][..i] == entries[..i];
      var entry := DeserializeExecuteResult(entries[i]);
      match entry {
        case Err(e) =>
          ListFails(ParseExecuteResult, entries, i + 1);
          return Err(e);
        case Ok(None) =>
        case Ok(Some(result)) => results := results + [result];
      }
      i := i + 1;
    }
    assert entries[..|entries|] == entries;
    r := Ok(results);
  }
}
