/** Printing then parsing gives back every safe message. */
module WireRoundTrip {
  import opened Prelude
  import opened PaxosTypes
  import opened Text
  import opened Serializer
  import opened WireFormat

  // ----- safe parts read back ----------------------------------------------------------

  lemma OpTextClean(op: Operation, bad: set<char>)
    requires bad <= LIST && SafeOp(op, bad)
    ensures Clean(OpText(op), bad)
  {
    match op
    case Get(key) => WrappedClean("get(\"", key, "\")", bad);
    case Remove(key) => WrappedClean("remove(\"", key, "\")", bad);
    case Clear =>
    case Demo =>
  }

  lemma CommandReadsBack(c: Option<Operation>, bad: set<char>)
    requires bad <= LIST && SafeCommand(c, bad)
    ensures ParseCommand(CommandText(c)) == Ok(c)
    ensures Clean(CommandText(c), bad)
    ensures c.Some? ==> CommandText(c) != "none" && ParseOp(CommandText(c)) == Ok(c.value)
  {
    if c.Some? {
      hide ParseOp, OpText, Clean;
      OperationRoundTrip(c.value);
      OpTextClean(c.value, bad);
    }
  }

  lemma ResultReadsBack(r: CmdResult, bad: set<char>)
    requires bad <= LIST && SafeResult(r, bad)
    ensures ParseResult(ResultText(r)) == Ok(r)
    ensures Clean(ResultText(r), bad)
  {
  }

  lemma RoleReadsBack(r: Role)
    ensures ParseRole(RoleText(r)) == Some(r)
    ensures Clean(RoleText(r), COMMA) && RoleText(r) != "" && RoleText(r)[|RoleText(r)| - 1] != '|'
  {
  }

  lemma {:induction false} JoinEnd(parts: seq<string>, c: char)
    requires parts != [] && parts[|parts| - 1] != ""
    ensures var (text, last) := (Join(parts, [c]), parts[|parts| - 1]);
      text != "" && text[|text| - 1] == last[|last| - 1]
  {
    if |parts| > 1 {
      JoinEnd(parts[1..], c);
    }
  }

  lemma CleanSubset(s: string, bad: set<char>, fewer: set<char>)
    requires Clean(s, bad) && fewer <= bad
    ensures Clean(s, fewer)
  {
  }

  lemma NodeFieldsParse(parts: seq<string>, n: Node)
    requires LastField(parts, "node_id") == Some(Dec(n.nodeId))
    requires LastField(parts, "address") == Some(n.address)
    requires LastField(parts, "role") == Some(RoleText(n.role))
    requires RolesKnown(parts)
    ensures forall s :: Split(s, ",") == parts ==> ParseNode(s) == Ok(n)
  {
    hide Split, RolesKnown, LastField;
    NumberOf(parts, "node_id", n.nodeId);
    RoleReadsBack(n.role);
  }

  lemma NodeRolesKnown(values: seq<string>, r: Role)
    requires |values| == 3 && values[2] == RoleText(r)
    ensures RolesKnown(Fields(NODE_KEYS, values))
  {
    hide RoleText, ParseRole;
    RoleReadsBack(r);
    KeysAreKeys();
    forall i | 0 <= i < 3 ensures HasKey(Fields(NODE_KEYS, values)[i], "role") ==> i == 2 {
      KeyValueOfField(NODE_KEYS[i], values[i]);
      assert NODE_KEYS[i] == "role" ==> i == 2;
    }
    KeyValueOfField(NODE_KEYS[2], values[2]);
  }

  lemma NodeReadsBack(n: Node)
    requires Clean(n.address, COMMA)
    ensures ParseNode(NodeText(n)) == Ok(n)
    ensures Clean(NodeText(n), {}) && NodeText(n) != "" && NodeText(n)[|NodeText(n)| - 1] != '|'
  {
    hide LastField, Split, Keys, Clean, Find, RolesKnown, ParseNode, ParseRole, RoleText, Join;
    var values := [Dec(n.nodeId), n.address, RoleText(n.role)];
    var parts := Fields(NODE_KEYS, values);
    KeysAreKeys();
    NumbersClean(n.nodeId, COMMA);
    RoleReadsBack(n.role);
    assert Texts(values, COMMA);
    RecordSplits(NODE_KEYS, values, COMMA);
    assert LastField(parts, NODE_KEYS[0]) == Some(values[0]);
    assert LastField(parts, NODE_KEYS[1]) == Some(values[1]);
    assert LastField(parts, NODE_KEYS[2]) == Some(values[2]);
    NodeRolesKnown(values, n.role);
    NodeFieldsParse(parts, n);
    JoinEnd(parts, ',');
    assert parts[2] == ("role" + ":") + RoleText(n.role);
    CleanSubset(NodeText(n), COMMA - {','}, {});
  }

  // ----- payloads without a list -------------------------------------------------------

  lemma Dispatch(s: string)
    ensures var (kind, parts) := (KindOf(Split(s, ",")[0]), Split(s, ",")[1..]);
      && (kind == Some(KIgnore) ==> ParsePayload(s) == Ok(Ignore))
      && (kind == Some(KClientRequest) ==> ParsePayload(s) == ParseClientRequest(parts))
      && (kind == Some(KClientResponse) ==> ParsePayload(s) == ParseClientResponse(parts))
      && (kind == Some(KPrepare) ==> ParsePayload(s) == ParsePrepare(parts))
      && (kind == Some(KPromise) ==> ParsePayload(s) == ParsePromise(s))
      && (kind == Some(KAccept) ==> ParsePayload(s) == ParseAccept(parts))
      && (kind == Some(KAccepted) ==> ParsePayload(s) == ParseAccepted(parts))
      && (kind == Some(KLearn) ==> ParsePayload(s) == ParseLearn(parts))
      && (kind == Some(KHeartbeat) ==> ParsePayload(s) == Ok(Heartbeat))
      && (kind == Some(KRetryLearns) ==> ParsePayload(s) == ParseRetryLearns(parts))
      && (kind == Some(KExecuted) ==> ParsePayload(s) == ParseExecuted(s))
      && (kind == Some(KBenchmark) ==> ParsePayload(s) == ParseBenchmark(parts))
      && (kind == Some(KAdu) ==> ParsePayload(s) == ParseAdu(parts))
  {
    hide Split, KindOf, ParseClientRequest, ParseClientResponse, ParsePrepare, ParsePromise, ParseAccept, ParseAccepted,
      ParseLearn, ParseRetryLearns, ParseExecuted, ParseBenchmark, ParseAdu;
  }

  lemma ValueParses(parts: seq<string>, v: Value, missing: string)
    requires SafeValue(v, COMMA)
    requires LastField(parts, "client_id") == Some(v.clientId)
    requires LastField(parts, "client_seq") == Some(Dec(v.clientSeq))
    requires LastField(parts, "op") == Some(CommandText(v.command))
    ensures ParseValue(parts, missing) == Ok(v)
  {
    hide LastField, Clean, ParseCommand;
    NumberOf(parts, "client_seq", v.clientSeq);
    CommandReadsBack(v.command, COMMA);
  }

  lemma ClientRequestParses(parts: seq<string>, v: Value)
    requires SafeValue(v, COMMA)
    requires LastField(parts, "client_id") == Some(v.clientId)
    requires LastField(parts, "client_seq") == Some(Dec(v.clientSeq))
    requires LastField(parts, "op") == Some(CommandText(v.command))
    ensures ParseClientRequest(parts) == Ok(ClientRequest(v))
  {
    hide LastField, Clean;
    ValueParses(parts, v, "bad client-request");
  }

  lemma ClientResponseParses(parts: seq<string>, id: string, n: u64, success: bool, r: CmdResult)
    requires Clean(id, COMMA) && SafeResult(r, COMMA)
    requires LastField(parts, "client_id") == Some(id)
    requires LastField(parts, "client_seq") == Some(Dec(n))
    requires LastField(parts, "success") == Some(BoolText(success))
    requires LastField(parts, "result") == Some(ResultText(r))
    ensures ParseClientResponse(parts) == Ok(ClientResponse(id, n, success, r))
  {
    hide LastField, Clean;
    NumberOf(parts, "client_seq", n);
    FlagOf(parts, "success", success);
    ResultReadsBack(r, COMMA);
  }

  lemma PrepareParses(parts: seq<string>, slot: Slot, ballot: Ballot)
    requires LastField(parts, "slot") == Some(Dec(slot))
    requires LastField(parts, "ballot") == Some(Dec(ballot))
    ensures ParsePrepare(parts) == Ok(PrepareMsg(slot, ballot))
  {
    hide LastField, Clean;
    NumberOf(parts, "slot", slot);
    NumberOf(parts, "ballot", ballot);
  }

  lemma AcceptParses(parts: seq<string>, slot: Slot, ballot: Ballot, v: Value)
    requires SafeValue(v, COMMA)
    requires LastField(parts, "slot") == Some(Dec(slot))
    requires LastField(parts, "ballot") == Some(Dec(ballot))
    requires LastField(parts, "client_id") == Some(v.clientId)
    requires LastField(parts, "client_seq") == Some(Dec(v.clientSeq))
    requires LastField(parts, "op") == Some(CommandText(v.command))
    ensures ParseAccept(parts) == Ok(AcceptMsg(slot, ballot, v))
  {
    hide LastField, Clean;
    NumberOf(parts, "slot", slot);
    NumberOf(parts, "ballot", ballot);
    ValueParses(parts, v, "bad accept");
  }

  lemma AcceptedParses(parts: seq<string>, slot: Slot, ballot: Ballot, success: bool)
    requires LastField(parts, "slot") == Some(Dec(slot))
    requires LastField(parts, "ballot") == Some(Dec(ballot))
    requires LastField(parts, "success") == Some(BoolText(success))
    ensures ParseAccepted(parts) == Ok(AcceptedMsg(slot, ballot, success))
  {
    hide LastField, Clean;
    NumberOf(parts, "slot", slot);
    NumberOf(parts, "ballot", ballot);
    FlagOf(parts, "success", success);
  }

  lemma LearnParses(parts: seq<string>, slot: Slot, v: Value)
    requires SafeValue(v, COMMA)
    requires LastField(parts, "slot") == Some(Dec(slot))
    requires LastField(parts, "client_id") == Some(v.clientId)
    requires LastField(parts, "client_seq") == Some(Dec(v.clientSeq))
    requires LastField(parts, "op") == Some(CommandText(v.command))
    ensures ParseLearn(parts) == Ok(LearnMsg(slot, v))
  {
    hide LastField, Clean;
    NumberOf(parts, "slot", slot);
    ValueParses(parts, v, "bad learn");
  }

  lemma BenchmarkParses(parts: seq<string>, stamp: u64, text: string)
    requires Clean(text, COMMA)
    requires LastField(parts, "send_timestamp") == Some(Dec(stamp))
    requires LastField(parts, "payload") == Some(text)
    ensures ParseBenchmark(parts) == Ok(Benchmark(stamp, text))
  {
    hide LastField, Clean;
    NumberOf(parts, "send_timestamp", stamp);
  }

  /** The payloads printed as a tag and flat fields. */
  ghost predicate Flat(p: Payload) {
    p.ClientRequest? || p.ClientResponse? || p.PrepareMsg? || p.AcceptMsg? || p.AcceptedMsg? || p.LearnMsg? || p.Benchmark?
  }

  ghost function TagOf(p: Payload): string
    requires Flat(p)
  {
    match p
    case ClientRequest(_) => "client-request"
    case ClientResponse(_, _, _, _) => "client-response"
    case PrepareMsg(_, _) => "prepare"
    case AcceptMsg(_, _, _) => "accept"
    case AcceptedMsg(_, _, _) => "accepted"
    case LearnMsg(_, _) => "learn"
    case Benchmark(_, _) => "benchmark"
  }

  ghost function KeysOf(p: Payload): seq<string>
    requires Flat(p)
  {
    match p
    case ClientRequest(_) => VALUE_KEYS
    case ClientResponse(_, _, _, _) => RESPONSE_KEYS
    case PrepareMsg(_, _) => PREPARE_KEYS
    case AcceptMsg(_, _, _) => PROPOSAL_KEYS
    case AcceptedMsg(_, _, _) => ACCEPTED_KEYS
    case LearnMsg(_, _) => LEARN_KEYS
    case Benchmark(_, _) => BENCHMARK_KEYS
  }

  ghost function ValuesOf(p: Payload): (values: seq<string>)
    requires Flat(p)
    ensures |values| == |KeysOf(p)| > 0
  {
    match p
    case ClientRequest(v) => [v.clientId, Dec(v.clientSeq), CommandText(v.command)]
    case ClientResponse(id, n, success, r) => [id, Dec(n), BoolText(success), ResultText(r)]
    case PrepareMsg(slot, ballot) => [Dec(slot), Dec(ballot)]
    case AcceptMsg(slot, ballot, v) => [Dec(slot), Dec(ballot), v.clientId, Dec(v.clientSeq), CommandText(v.command)]
    case AcceptedMsg(slot, ballot, success) => [Dec(slot), Dec(ballot), BoolText(success)]
    case LearnMsg(slot, v) => [Dec(slot), v.clientId, Dec(v.clientSeq), CommandText(v.command)]
    case Benchmark(stamp, text) => [Dec(stamp), text]
  }

  lemma FlatText(p: Payload)
    requires Flat(p)
    ensures PayloadText(p) == Tagged(TagOf(p), KeysOf(p), ValuesOf(p))
    ensures TagOf(p) != "" && KindOf(TagOf(p)).Some? && Keys(KeysOf(p))
  {
    hide Tagged, Keys, KindOf, Dec, CommandText, BoolText, ResultText;
    KeysAreKeys();
    KindsOfTags();
  }

  lemma ValuesClean(p: Payload)
    requires Flat(p) && SafePayload(p)
    ensures Texts(ValuesOf(p), COMMA)
  {
    hide Clean, Dec, CommandText, ResultText, BoolText, ParseCommand, ParseOp, ParseResult, SafeCommand, SafeResult;
    match p
    case ClientRequest(v) => ValueTextsClean(v);
    case ClientResponse(id, n, success, r) =>
      NumbersClean(n, COMMA);
      BoolsClean(success, COMMA);
      ResultReadsBack(r, COMMA);
    case PrepareMsg(slot, ballot) =>
      NumbersClean(slot, COMMA);
      NumbersClean(ballot, COMMA);
    case AcceptMsg(slot, ballot, v) =>
      NumbersClean(slot, COMMA);
      NumbersClean(ballot, COMMA);
      ValueTextsClean(v);
    case AcceptedMsg(slot, ballot, success) =>
      NumbersClean(slot, COMMA);
      NumbersClean(ballot, COMMA);
      BoolsClean(success, COMMA);
    case LearnMsg(slot, v) =>
      NumbersClean(slot, COMMA);
      ValueTextsClean(v);
    case Benchmark(stamp, _) => NumbersClean(stamp, COMMA);
  }

  lemma ValueTextsClean(v: Value)
    requires SafeValue(v, COMMA)
    ensures Clean(v.clientId, COMMA) && Clean(Dec(v.clientSeq), COMMA) && Clean(CommandText(v.command), COMMA)
  {
    hide Clean, Dec, CommandText, ParseCommand, ParseOp, SafeCommand;
    NumbersClean(v.clientSeq, COMMA);
    CommandReadsBack(v.command, COMMA);
  }

  /** Fields that hold the values of a payload parse to it. */
  lemma FlatParses(p: Payload, s: string)
    requires Flat(p) && SafePayload(p) && Split(s, ",")[0] == TagOf(p)
    requires forall i :: 0 <= i < |KeysOf(p)| ==> LastField(Split(s, ",")[1..], KeysOf(p)[i]) == Some(ValuesOf(p)[i])
    ensures ParsePayload(s) == Ok(p)
  {
    hide ParsePayload, LastField, Split, Clean, KindOf, Dec, CommandText, ResultText, BoolText, SafeValue, SafeResult,
      ParseClientRequest, ParseClientResponse, ParsePrepare, ParseAccept, ParseAccepted, ParseLearn, ParseBenchmark;
    KindsOfTags();
    Dispatch(s);
    var parts := Split(s, ",")[1..];
    var (keys, values) := (KeysOf(p), ValuesOf(p));
    assert LastField(parts, keys[0]) == Some(values[0]) && LastField(parts, keys[1]) == Some(values[1]);
    assert 2 < |keys| ==> LastField(parts, keys[2]) == Some(values[2]);
    assert 3 < |keys| ==> LastField(parts, keys[3]) == Some(values[3]);
    assert 4 < |keys| ==> LastField(parts, keys[4]) == Some(values[4]);
    match p
    case ClientRequest(v) => ClientRequestParses(parts, v);
    case ClientResponse(id, n, success, r) => ClientResponseParses(parts, id, n, success, r);
    case PrepareMsg(slot, ballot) => PrepareParses(parts, slot, ballot);
    case AcceptMsg(slot, ballot, v) => AcceptParses(parts, slot, ballot, v);
    case AcceptedMsg(slot, ballot, success) => AcceptedParses(parts, slot, ballot, success);
    case LearnMsg(slot, v) => LearnParses(parts, slot, v);
    case Benchmark(stamp, text) => BenchmarkParses(parts, stamp, text);
  }

  lemma FlatReadsBack(p: Payload)
    requires Flat(p) && SafePayload(p)
    ensures ParsePayload(PayloadText(p)) == Ok(p) && Clean(PayloadText(p), {})
  {
    hide ParsePayload, PayloadText, LastField, Split, Keys, Clean, Tagged, KindOf, TagOf, KeysOf, ValuesOf, Texts, SafePayload, Fields;
    FlatText(p);
    ValuesClean(p);
    TaggedSplits(TagOf(p), KeysOf(p), ValuesOf(p));
    FlatParses(p, PayloadText(p));
  }

  lemma AduReadsBack(slot: Slot)
    ensures ParsePayload(PayloadText(Adu(slot))) == Ok(Adu(slot)) && Clean(PayloadText(Adu(slot)), {})
  {
    hide ParsePayload, Split, Join, KindOf;
    var parts := ["adu", Dec(slot)];
    KindsOfTags();
    NumbersClean(slot, COMMA);
    DecParses(slot);
    SplitJoin(parts, ',');
    JoinClean(parts, ',', {});
    assert parts[1..] == [Dec(slot)];
    Dispatch(Join(parts, ","));
  }

  lemma WordReadsBack(p: Payload)
    requires p == Ignore || p == Heartbeat
    ensures ParsePayload(PayloadText(p)) == Ok(p) && Clean(PayloadText(p), {})
  {
    var s := PayloadText(p);
    assert ',' !in s && Clean(s, {});
    hide ParsePayload, Split, KindOf, Find, Clean;
    KindsOfTags();
    NoFirstCharNoFind(s, ",");
    SplitAlone(s, ",");
    Dispatch(s);
  }

  // ----- payloads with a list -----------------------------------------------------------

  lemma {:induction false} ListParses<T(!new)>(parse: string -> Result<Option<T>>, format: T -> string, items: seq<T>)
    requires forall x :: x in items ==> parse(format(x)) == Ok(Some(x))
    ensures ParseList(parse, Map(format, items)) == Ok(items)
  {
    if items != [] {
      var (init, last) := (items[..|items| - 1], items[|items| - 1]);
      assert last in items;
      ListParses(parse, format, init);
      assert Map(format, items)[..|items| - 1] == Map(format, init);
      assert items == init + [last];
    }
  }

  /** A list of printed entries comes apart at the pipes and parses back; the empty
      list prints as nothing, which parses as one entry without fields. */
  lemma BodyParses<T(!new)>(parse: string -> Result<Option<T>>, format: T -> string, items: seq<T>)
    requires forall x :: x in items ==> parse(format(x)) == Ok(Some(x)) && '|' !in format(x)
    requires parse("") == Ok(None)
    ensures ParseBody(parse, Some(Join(Map(format, items), "|"))) == Ok(items)
  {
    if items == [] {
      assert Split("", "|") == [""];
      assert [""][..0] == [];
      assert ParseList(parse, [""]) == Ok([]);
    } else {
      var parts := Map(format, items);
      forall i | 0 <= i < |parts| ensures '|' !in parts[i] {
        assert items[i] in items;
      }
      SplitJoin(parts, '|');
      ListParses(parse, format, items);
    }
  }

  lemma BodyClean<T(!new)>(format: T -> string, items: seq<T>)
    requires forall x :: x in items ==> format(x) != "" && Clean(format(x), {'|', ']'})
    ensures var list := Join(Map(format, items), "|");
      Clean(list, {']'}) && (list == "" || list[0] != '|')
  {
    var parts := Map(format, items);
    forall i | 0 <= i < |parts| ensures parts[i] != "" && Clean(parts[i], {']'} + {'|'}) {
      assert items[i] in items;
      CleanSubset(parts[i], {'|', ']'}, {']'} + {'|'});
    }
    JoinPipesClean(parts, {']'});
  }

  lemma CutListOf(header: string, open: string, list: string, malformed: string)
    requires open != "" && open[|open| - 1] == '[' && '[' !in open[..|open| - 1]
    requires '[' !in header && ']' !in list
    ensures CutList(header + open + (list + "]"), open, malformed) == Ok((header, Some(list)))
  {
    var s := header + open + (list + "]");
    FindByLastChar(header, open, list + "]");
    assert s[|header| + |open|..] == list + "]" && s[..|header|] == header;
    assert list + "]" == list + "]" + "";
    FindByFirstChar(list, "]", "");
    assert (list + "]")[..|list|] == list;
  }

  lemma {:induction false} JoinTrailing(parts: seq<string>)
    requires parts != []
    ensures Join(parts, ",") + "," == Join(parts + [""], ",")
  {
    if |parts| == 1 {
      assert (parts + [""])[1..] == [""];
      assert "," + "" == ",";
    } else {
      JoinTrailing(parts[1..]);
      assert (parts + [""])[1..] == parts[1..] + [""];
      ConcatAssociative(parts[0], "," + Join(parts[1..], ","), ",");
      ConcatAssociative(",", Join(parts[1..], ","), ",");
    }
  }

  lemma HeaderParts(tag: string, keys: seq<string>, values: seq<string>)
    requires |keys| == |values| > 0 && Keys(keys) && Texts(values, {',', '['}) && KindOf(tag).Some?
    ensures var parts := [tag] + Fields(keys, values);
      forall i :: 0 <= i < |parts| ==> ',' !in parts[i] && Clean(parts[i], {'['})
  {
    hide KindOf, Keys;
    TagsPlain(tag);
    FieldsClean(keys, values, {',', '['});
    var parts := [tag] + Fields(keys, values);
    forall i | 0 <= i < |parts| ensures ',' !in parts[i] && Clean(parts[i], {'['}) {
      if i > 0 {
        assert parts[i] == Fields(keys, values)[i - 1];
        CleanSubset(parts[i], {',', '['}, {'['});
      }
    }
  }

  lemma TagsPlain(tag: string)
    requires KindOf(tag).Some?
    ensures ',' !in tag && Clean(tag, {'['})
  {
    TagsClean(tag);
    assert '[' !in tag;
  }

  /** The header before a list splits into its fields and an empty last part. */
  lemma HeaderSplits(tag: string, keys: seq<string>, values: seq<string>)
    requires |keys| == |values| > 0 && Keys(keys) && Texts(values, {',', '['}) && KindOf(tag).Some?
    ensures var header := Tagged(tag, keys, values);
      && Split(header + ",", ",")[1..] == Fields(keys, values) + [""]
      && '[' !in header + "," && Clean(header + ",", {})
      && (forall i :: 0 <= i < |keys| ==> LastField(Fields(keys, values) + [""], keys[i]) == Some(values[i]))
  {
    hide KindOf, Clean, LastField, Keys, Split, Join;
    HeaderParts(tag, keys, values);
    var parts := [tag] + Fields(keys, values);
    JoinTrailing(parts);
    SplitJoin(parts + [""], ',');
    assert (parts + [""])[1..] == Fields(keys, values) + [""];
    JoinClean(parts, ',', {'['});
    HeaderAvoids(Tagged(tag, keys, values));
    forall i | 0 <= i < |keys| ensures LastField(Fields(keys, values) + [""], keys[i]) == Some(values[i]) {
      LastFieldOf(keys, values, i);
      LastFieldSkipsEmpty(Fields(keys, values), keys[i]);
    }
  }

  lemma HeaderAvoids(header: string)
    requires Clean(header, {'['})
    ensures '[' !in header + "," && Clean(header + ",", {})
  {
  }

  lemma LastFieldSkipsEmpty(parts: seq<string>, key: string)
    ensures LastField(parts + [""], key) == LastField(parts, key)
  {
  }

  lemma SplitHead(tag: string, rest: string)
    requires ',' !in tag
    ensures Split(tag + "," + rest, ",")[0] == tag
  {
    FindByFirstChar(tag, ",", rest);
    SplitAt(tag, ",", rest);
  }

  lemma TaggedStarts(tag: string, keys: seq<string>, values: seq<string>, rest: string)
    requires |keys| == |values| > 0 && KindOf(tag).Some?
    ensures Split(Tagged(tag, keys, values) + rest, ",")[0] == tag
  {
    hide KindOf, Split;
    TagsClean(tag);
    var parts := [tag] + Fields(keys, values);
    var tail := Join(parts[1..], ",");
    assert Tagged(tag, keys, values) + rest == tag + "," + (tail + rest);
    SplitHead(tag, tail + rest);
  }

  // promise entries

  lemma EntryParses(parts: seq<string>, text: string, pv: PValue)
    requires SafeEntry(pv) && pv.value.Some? && Split(text, ",") == parts
    requires LastField(parts, "slot") == Some(Dec(pv.slot)) && LastField(parts, "ballot") == Some(Dec(pv.ballot))
    requires LastField(parts, "client_id") == Some(pv.value.value.clientId)
    requires LastField(parts, "client_seq") == Some(Dec(pv.value.value.clientSeq))
    requires LastField(parts, "op") == Some(CommandText(pv.value.value.command))
    ensures ParseEntry(text) == Ok(Some(pv))
  {
    hide LastField, Clean, Split, ParseOp, CommandText;
    NumberOf(parts, "slot", pv.slot);
    NumberOf(parts, "ballot", pv.ballot);
    NumberOf(parts, "client_seq", pv.value.value.clientSeq);
    CommandReadsBack(pv.value.value.command, LIST);
  }

  lemma BlankEntryParses(parts: seq<string>, text: string, pv: PValue)
    requires pv.value.None? && Split(text, ",") == parts
    requires LastField(parts, "slot") == Some(Dec(pv.slot)) && LastField(parts, "ballot") == Some(Dec(pv.ballot))
    requires LastField(parts, "client_id") == Some("unknown")
    requires LastField(parts, "client_seq") == Some(Dec(0))
    requires LastField(parts, "op") == Some("none")
    ensures ParseEntry(text) == Ok(Some(pv))
  {
    hide LastField, Split, Dec;
    NumberOf(parts, "slot", pv.slot);
    NumberOf(parts, "ballot", pv.ballot);
    NumberOf(parts, "client_seq", 0);
  }

  lemma ProposalTextReads(values: seq<string>)
    requires |values| == 5 && Texts(values, LIST)
    ensures var text := Join(Fields(PROPOSAL_KEYS, values), ",");
      var parts := Split(text, ",");
      && LastField(parts, "slot") == Some(values[0]) && LastField(parts, "ballot") == Some(values[1])
      && LastField(parts, "client_id") == Some(values[2]) && LastField(parts, "client_seq") == Some(values[3])
      && LastField(parts, "op") == Some(values[4])
      && text != "" && Clean(text, {'|', ']'})
  {
    hide LastField, Split, Keys, Clean, Find;
    KeysAreKeys();
    RecordSplits(PROPOSAL_KEYS, values, LIST);
    var parts := Fields(PROPOSAL_KEYS, values);
    assert LastField(parts, PROPOSAL_KEYS[0]) == Some(values[0]);
    assert LastField(parts, PROPOSAL_KEYS[1]) == Some(values[1]);
    assert LastField(parts, PROPOSAL_KEYS[2]) == Some(values[2]);
    assert LastField(parts, PROPOSAL_KEYS[3]) == Some(values[3]);
    assert LastField(parts, PROPOSAL_KEYS[4]) == Some(values[4]);
    CleanSubset(Join(parts, ","), LIST - {','}, {'|', ']'});
  }

  ghost function EntryValues(pv: PValue): seq<string> {
    match pv.value
    case Some(v) => [Dec(pv.slot), Dec(pv.ballot), v.clientId, Dec(v.clientSeq), CommandText(v.command)]
    case None => [Dec(pv.slot), Dec(pv.ballot), "unknown", Dec(0), "none"]
  }

  lemma StandInsClean()
    ensures Clean("unknown", LIST) && Clean("none", LIST)
  {
  }

  lemma EntryValuesClean(pv: PValue)
    requires SafeEntry(pv)
    ensures Texts(EntryValues(pv), LIST)
  {
    hide Clean, Dec, CommandText, ParseCommand, ParseOp, SafeCommand;
    NumbersClean(pv.slot, LIST);
    NumbersClean(pv.ballot, LIST);
    match pv.value
    case Some(v) =>
      NumbersClean(v.clientSeq, LIST);
      CommandReadsBack(v.command, LIST);
    case None =>
      NumbersClean(0, LIST);
      StandInsClean();
  }

  lemma EntryReadsBack(pv: PValue)
    requires SafeEntry(pv)
    ensures ParseEntry(EntryText(pv)) == Ok(Some(pv))
    ensures EntryText(pv) != "" && Clean(EntryText(pv), {'|', ']'})
  {
    hide LastField, Split, Keys, Clean, Find, ParseEntry, Dec, CommandText, Texts, Join, SafeEntry, Fields;
    EntryValuesClean(pv);
    ProposalTextReads(EntryValues(pv));
    var text := EntryText(pv);
    assert text == Join(Fields(PROPOSAL_KEYS, EntryValues(pv)), ",");
    match pv.value
    case Some(v) => EntryParses(Split(text, ","), text, pv);
    case None => BlankEntryParses(Split(text, ","), text, pv);
  }

  lemma EmptyEntry()
    ensures ParseEntry("") == Ok(None)
    ensures ParseExecuteResult("") == Ok(None)
  {
  }

  lemma PromiseHeaderParses(parts: seq<string>, s: string, header: string, list: Option<string>, p: Promise)
    requires CutList(s, "accepted:[", "malformed promise accepted list") == Ok((header, list))
    requires Split(header, ",")[1..] == parts
    requires LastField(parts, "slot") == Some(Dec(p.slot)) && LastField(parts, "ballot") == Some(Dec(p.ballot))
    requires ParseBody(ParseEntry, list) == Ok(p.accepted)
    ensures ParsePromise(s) == Ok(PromiseMsg(p))
  {
    hide CutList, Split, LastField, ParseBody;
    NumberOf(parts, "slot", p.slot);
    NumberOf(parts, "ballot", p.ballot);
  }

  lemma EmptyPromiseReadsBack(p: Promise)
    requires p.accepted == []
    ensures ParsePayload(PayloadText(PromiseMsg(p))) == Ok(PromiseMsg(p)) && Clean(PayloadText(PromiseMsg(p)), {})
  {
    hide ParsePayload, LastField, Split, Keys, Clean, Tagged, KindOf, Find, Dec, ParsePromise, ParseEntry, Join;
    var values := [Dec(p.slot), Dec(p.ballot)];
    var text := Tagged("promise", PREPARE_KEYS, values);
    KeysAreKeys();
    KindsOfTags();
    NumbersClean(p.slot, DELIMITERS);
    NumbersClean(p.ballot, DELIMITERS);
    CleanSubset(values[0], DELIMITERS, {',', '['});
    CleanSubset(values[1], DELIMITERS, {',', '['});
    CleanSubset(values[0], DELIMITERS, COMMA);
    CleanSubset(values[1], DELIMITERS, COMMA);
    assert Texts(values, COMMA) && Texts(values, {',', '['});
    TaggedSplits("promise", PREPARE_KEYS, values);
    var parts := Fields(PREPARE_KEYS, values);
    assert LastField(parts, PREPARE_KEYS[0]) == Some(values[0]);
    assert LastField(parts, PREPARE_KEYS[1]) == Some(values[1]);
    HeaderSplits("promise", PREPARE_KEYS, values);
    NoMarker(text, "accepted:[");
    assert ParseBody(ParseEntry, None) == Ok(p.accepted);
    PromiseHeaderParses(parts, text, text, None, p);
    Dispatch(text);
  }

  lemma FoundHas(s: string, pat: string, k: nat)
    requires k < |pat| && Find(s, pat).Some?
    ensures pat[k] in s
  {
  }

  lemma NoMarker(s: string, open: string)
    requires open != "" && open[|open| - 1] == '[' && '[' !in s
    ensures Find(s, open) == None
  {
  }

  ghost predicate Marker(open: string) {
    open != "" && open[|open| - 1] == '[' && '[' !in open[..|open| - 1] && Clean(open, {})
  }

  lemma BracketedCuts(header: string, open: string, list: string, malformed: string)
    requires Marker(open) && '[' !in header + "," && Clean(list, {']'})
    ensures CutList(Bracketed(header, open, list), open, malformed) == Ok((header + ",", Some(list)))
  {
    hide Clean, CutList;
    CleanAvoids(list, {']'}, ']');
    CutListOf(header + ",", open, list, malformed);
  }

  lemma BracketedTextClean(header: string, open: string, list: string)
    requires Marker(open) && Clean(header + ",", {}) && Clean(list, {']'})
    ensures Clean(Bracketed(header, open, list), {})
  {
  }

  lemma BracketedStarts(tag: string, keys: seq<string>, values: seq<string>, open: string, list: string)
    requires |keys| == |values| > 0 && KindOf(tag).Some?
    ensures Split(Bracketed(Tagged(tag, keys, values), open, list), ",")[0] == tag
  {
    hide Split, Tagged, KindOf;
    var tail := list + "]";
    TaggedStarts(tag, keys, values, "," + open + tail);
    assert Tagged(tag, keys, values) + ("," + open + tail) == Bracketed(Tagged(tag, keys, values), open, list);
  }

  /** A tagged header followed by a bracketed list comes apart again. */
  lemma BracketedSplits(tag: string, keys: seq<string>, values: seq<string>, open: string, list: string, malformed: string)
    requires |keys| == |values| > 0 && Keys(keys) && Texts(values, {',', '['}) && KindOf(tag).Some? && Marker(open)
    requires Clean(list, {']'})
    ensures var header := Tagged(tag, keys, values);
      && CutList(Bracketed(header, open, list), open, malformed) == Ok((header + ",", Some(list)))
      && Split(header + ",", ",")[1..] == Fields(keys, values) + [""]
      && (forall i :: 0 <= i < |keys| ==> LastField(Fields(keys, values) + [""], keys[i]) == Some(values[i]))
      && Split(Bracketed(header, open, list), ",")[0] == tag && Clean(Bracketed(header, open, list), {})
  {
    hide LastField, Split, Keys, Clean, Tagged, KindOf, Find, CutList, Fields, Bracketed, Marker, Texts;
    HeaderSplits(tag, keys, values);
    BracketedCuts(Tagged(tag, keys, values), open, list, malformed);
    BracketedTextClean(Tagged(tag, keys, values), open, list);
    BracketedStarts(tag, keys, values, open, list);
  }

  lemma EntriesReadBack(items: seq<PValue>)
    requires forall pv :: pv in items ==> SafeEntry(pv)
    ensures var list := Join(Map(EntryText, items), "|");
      ParseBody(ParseEntry, Some(list)) == Ok(items) && Clean(list, {']'})
  {
    hide ParseEntry, EntryText, SafeEntry, ParseBody, Clean, Join;
    forall pv | pv in items
      ensures ParseEntry(EntryText(pv)) == Ok(Some(pv)) && EntryText(pv) != "" && Clean(EntryText(pv), {'|', ']'}) && '|' !in EntryText(pv)
    {
      EntryReadsBack(pv);
      CleanAvoids(EntryText(pv), {'|', ']'}, '|');
    }
    EmptyEntry();
    BodyParses(ParseEntry, EntryText, items);
    BodyClean(EntryText, items);
  }

  lemma Markers()
    ensures Marker("accepted:[") && Marker("results:[")
  {
  }

  lemma PromiseParses(p: Promise, list: string)
    requires ParseBody(ParseEntry, Some(list)) == Ok(p.accepted) && Clean(list, {']'})
    ensures var text := Bracketed(Tagged("promise", PREPARE_KEYS, [Dec(p.slot), Dec(p.ballot)]), "accepted:[", list);
      ParsePayload(text) == Ok(PromiseMsg(p)) && Clean(text, {})
  {
    hide ParsePayload, LastField, Split, Keys, Clean, Tagged, KindOf, Find, Dec, ParsePromise, CutList, ParseBody, Marker, Bracketed;
    var values := [Dec(p.slot), Dec(p.ballot)];
    Markers();
    KeysAreKeys();
    KindsOfTags();
    NumbersClean(p.slot, {',', '['});
    NumbersClean(p.ballot, {',', '['});
    assert Texts(values, {',', '['});
    BracketedSplits("promise", PREPARE_KEYS, values, "accepted:[", list, "malformed promise accepted list");
    var header := Tagged("promise", PREPARE_KEYS, values);
    var parts := Fields(PREPARE_KEYS, values) + [""];
    assert LastField(parts, PREPARE_KEYS[0]) == Some(values[0]);
    assert LastField(parts, PREPARE_KEYS[1]) == Some(values[1]);
    var text := Bracketed(header, "accepted:[", list);
    PromiseHeaderParses(parts, text, header + ",", Some(list), p);
    Dispatch(text);
  }

  lemma PromiseReadsBack(p: Promise)
    requires p.accepted != [] && forall pv :: pv in p.accepted ==> SafeEntry(pv)
    ensures ParsePayload(PayloadText(PromiseMsg(p))) == Ok(PromiseMsg(p)) && Clean(PayloadText(PromiseMsg(p)), {})
  {
    hide ParsePayload, Clean, Tagged, Dec, ParseEntry, Join, EntryText, SafeEntry, ParseBody, Bracketed, Map;
    EntriesReadBack(p.accepted);
    PromiseParses(p, Join(Map(EntryText, p.accepted), "|"));
  }

  lemma CleanAvoids(s: string, bad: set<char>, c: char)
    requires Clean(s, bad) && c in bad
    ensures c !in s
  {
  }

  // executed results

  lemma ExecuteResultParses(parts: seq<string>, text: string, r: ExecuteResult)
    requires SafeExecuteResult(r) && Split(text, ",") == parts
    requires LastField(parts, "slot") == Some(Dec(r.slot)) && LastField(parts, "client_id") == Some(r.value.clientId)
    requires LastField(parts, "client_seq") == Some(Dec(r.value.clientSeq))
    requires LastField(parts, "op") == Some(CommandText(r.value.command))
    requires LastField(parts, "success") == Some(BoolText(r.success))
    requires LastField(parts, "result") == Some(ResultText(r.cmdResult))
    ensures ParseExecuteResult(text) == Ok(Some(r))
  {
    hide LastField, Clean, Split, ParseCommand, CommandText, ParseResult, ResultText;
    NumberOf(parts, "slot", r.slot);
    NumberOf(parts, "client_seq", r.value.clientSeq);
    FlagOf(parts, "success", r.success);
    CommandReadsBack(r.value.command, LIST);
    ResultReadsBack(r.cmdResult, LIST);
  }

  lemma ResultTextReads(values: seq<string>)
    requires |values| == 6 && Texts(values, LIST)
    ensures var text := Join(Fields(RESULT_KEYS, values), ",");
      var parts := Split(text, ",");
      && LastField(parts, "slot") == Some(values[0]) && LastField(parts, "client_id") == Some(values[1])
      && LastField(parts, "client_seq") == Some(values[2]) && LastField(parts, "op") == Some(values[3])
      && LastField(parts, "success") == Some(values[4]) && LastField(parts, "result") == Some(values[5])
      && text != "" && Clean(text, {'|', ']'})
  {
    hide LastField, Split, Keys, Clean, Find;
    KeysAreKeys();
    RecordSplits(RESULT_KEYS, values, LIST);
    var parts := Fields(RESULT_KEYS, values);
    assert LastField(parts, RESULT_KEYS[0]) == Some(values[0]);
    assert LastField(parts, RESULT_KEYS[1]) == Some(values[1]);
    assert LastField(parts, RESULT_KEYS[2]) == Some(values[2]);
    assert LastField(parts, RESULT_KEYS[3]) == Some(values[3]);
    assert LastField(parts, RESULT_KEYS[4]) == Some(values[4]);
    assert LastField(parts, RESULT_KEYS[5]) == Some(values[5]);
    CleanSubset(Join(parts, ","), LIST - {','}, {'|', ']'});
  }

  ghost function ResultValues(r: ExecuteResult): seq<string> {
    [Dec(r.slot), r.value.clientId, Dec(r.value.clientSeq), CommandText(r.value.command), BoolText(r.success),
     ResultText(r.cmdResult)]
  }

  lemma ResultValuesClean(r: ExecuteResult)
    requires SafeExecuteResult(r)
    ensures Texts(ResultValues(r), LIST)
  {
    hide Clean, Dec, CommandText, ResultText, BoolText, ParseCommand, ParseOp, ParseResult, SafeCommand, SafeResult;
    NumbersClean(r.slot, LIST);
    NumbersClean(r.value.clientSeq, LIST);
    CommandReadsBack(r.value.command, LIST);
    ResultReadsBack(r.cmdResult, LIST);
    BoolsClean(r.success, LIST);
  }

  lemma ExecuteResultReadsBack(r: ExecuteResult)
    requires SafeExecuteResult(r)
    ensures ParseExecuteResult(ExecuteResultText(r)) == Ok(Some(r))
    ensures ExecuteResultText(r) != "" && Clean(ExecuteResultText(r), {'|', ']'})
  {
    hide LastField, Split, Keys, Clean, Find, ParseExecuteResult, Dec, CommandText, ResultText, BoolText, Texts, Join,
      SafeExecuteResult, Fields;
    ResultValuesClean(r);
    ResultTextReads(ResultValues(r));
    assert ExecuteResultText(r) == Join(Fields(RESULT_KEYS, ResultValues(r)), ",");
    ExecuteResultParses(Split(ExecuteResultText(r), ","), ExecuteResultText(r), r);
  }

  lemma ExecutedHeaderParses(parts: seq<string>, s: string, header: string, list: Option<string>, e: Executed)
    requires CutList(s, "results:[", "malformed executed results list") == Ok((header, list))
    requires Split(header, ",")[1..] == parts
    requires LastField(parts, "adu") == Some(Dec(e.adu))
    requires ParseBody(ParseExecuteResult, list) == Ok(e.results)
    ensures ParseExecuted(s) == Ok(ExecutedMsg(e))
  {
    hide CutList, Split, LastField, ParseBody;
    NumberOf(parts, "adu", e.adu);
  }

  lemma ResultsReadBack(items: seq<ExecuteResult>)
    requires forall r :: r in items ==> SafeExecuteResult(r)
    ensures var list := Join(Map(ExecuteResultText, items), "|");
      ParseBody(ParseExecuteResult, Some(list)) == Ok(items) && Clean(list, {']'})
  {
    hide ParseExecuteResult, ExecuteResultText, SafeExecuteResult, ParseBody, Clean, Join;
    forall r | r in items
      ensures ParseExecuteResult(ExecuteResultText(r)) == Ok(Some(r)) && ExecuteResultText(r) != ""
      ensures Clean(ExecuteResultText(r), {'|', ']'}) && '|' !in ExecuteResultText(r)
    {
      ExecuteResultReadsBack(r);
      CleanAvoids(ExecuteResultText(r), {'|', ']'}, '|');
    }
    EmptyEntry();
    BodyParses(ParseExecuteResult, ExecuteResultText, items);
    BodyClean(ExecuteResultText, items);
  }

  lemma ExecutedParses(e: Executed, list: string)
    requires ParseBody(ParseExecuteResult, Some(list)) == Ok(e.results) && Clean(list, {']'})
    ensures var text := Bracketed(Tagged("executed", ADU_KEYS, [Dec(e.adu)]), "results:[", list);
      ParsePayload(text) == Ok(ExecutedMsg(e)) && Clean(text, {})
  {
    hide ParsePayload, LastField, Split, Keys, Clean, Tagged, KindOf, Find, Dec, ParseExecuted, CutList, ParseBody, Marker, Bracketed;
    var values := [Dec(e.adu)];
    Markers();
    KeysAreKeys();
    KindsOfTags();
    NumbersClean(e.adu, {',', '['});
    assert Texts(values, {',', '['});
    BracketedSplits("executed", ADU_KEYS, values, "results:[", list, "malformed executed results list");
    var header := Tagged("executed", ADU_KEYS, values);
    var parts := Fields(ADU_KEYS, values) + [""];
    assert LastField(parts, ADU_KEYS[0]) == Some(values[0]);
    var text := Bracketed(header, "results:[", list);
    ExecutedHeaderParses(parts, text, header + ",", Some(list), e);
    Dispatch(text);
  }

  lemma ExecutedReadsBack(e: Executed)
    requires forall r :: r in e.results ==> SafeExecuteResult(r)
    ensures ParsePayload(PayloadText(ExecutedMsg(e))) == Ok(ExecutedMsg(e)) && Clean(PayloadText(ExecutedMsg(e)), {})
  {
    hide ParsePayload, Clean, Tagged, Dec, ParseExecuteResult, Join, ExecuteResultText, SafeExecuteResult, ParseBody,
      Bracketed, Map;
    ResultsReadBack(e.results);
    ExecutedParses(e, Join(Map(ExecuteResultText, e.results), "|"));
  }

  // retried slots

  lemma {:induction false} SlotsParse(slots: seq<Slot>)
    ensures ParseSlots(Map(SlotText, slots)) == Ok(slots)
  {
    if slots != [] {
      var init := slots[..|slots| - 1];
      SlotsParse(init);
      assert Map(SlotText, slots)[..|slots| - 1] == Map(SlotText, init);
      DecParses(slots[|slots| - 1]);
      assert slots == init + [slots[|slots| - 1]];
    }
  }

  lemma SlotListReads(slots: seq<Slot>)
    requires slots != []
    ensures var list := Join(Map(SlotText, slots), "|");
      && ParseSlots(Split(list, "|")) == Ok(slots)
      && Clean(list, COMMA) && list != "" && list[0] != '|'
  {
    var parts := Map(SlotText, slots);
    forall i | 0 <= i < |parts| ensures parts[i] != "" && Clean(parts[i], COMMA + {'|'}) && '|' !in parts[i] {
      NumbersClean(slots[i], COMMA + {'|'});
      DecClean(slots[i], {});
    }
    SplitJoin(parts, '|');
    SlotsParse(slots);
    JoinPipesClean(parts, COMMA);
  }

  lemma RetryParses(list: string, slots: seq<Slot>)
    requires ParseSlots(Split(list, "|")) == Ok(slots)
    ensures ParseRetryLearns([Field("slots", list)]) == Ok(RetryLearns(slots))
  {
  }

  lemma SlotsFieldClean(list: string)
    requires Clean(list, COMMA)
    ensures Clean(Field("slots", list), COMMA)
  {
  }

  lemma RetryReadsBack(slots: seq<Slot>)
    requires slots != []
    ensures ParsePayload(PayloadText(RetryLearns(slots))) == Ok(RetryLearns(slots))
    ensures Clean(PayloadText(RetryLearns(slots)), {})
  {
    hide ParsePayload, Split, KindOf, Find, Clean, ParseSlots, Join, Field, ParseRetryLearns, Map;
    KindsOfTags();
    LongTagsClean();
    SlotListReads(slots);
    var list := Join(Map(SlotText, slots), "|");
    var field := Field("slots", list);
    SlotsFieldClean(list);
    RetryParses(list, slots);
    var parts := ["retry-learns", field];
    CleanAvoids("retry-learns", COMMA, ',');
    CleanAvoids(field, COMMA, ',');
    SplitJoin(parts, ',');
    CleanSubset("retry-learns", COMMA, {});
    CleanSubset(field, COMMA, {});
    JoinClean(parts, ',', {});
    assert parts[1..] == [field];
    Dispatch(Join(parts, ","));
  }

  lemma PayloadReadsBack(p: Payload)
    requires SafePayload(p)
    ensures ParsePayload(PayloadText(p)) == Ok(p) && Clean(PayloadText(p), {})
  {
    hide ParsePayload, PayloadText, Clean, SafeEntry, SafeExecuteResult, SafeResult, SafeValue;
    match p
    case Ignore => WordReadsBack(p);
    case PromiseMsg(pr) => if pr.accepted == [] { EmptyPromiseReadsBack(pr); } else { PromiseReadsBack(pr); }
    case Heartbeat => WordReadsBack(p);
    case RetryLearns(slots) => RetryReadsBack(slots);
    case ExecutedMsg(e) => ExecutedReadsBack(e);
    case Adu(slot) => AduReadsBack(slot);
    case _ => FlatReadsBack(p);
  }

  lemma PrefixesClean()
    ensures Clean("sender=", {}) && Clean("payload=", {})
  {
  }

  lemma Unprefixed(prefix: string, body: string)
    ensures StripPrefix(prefix + body, prefix) == Some(body)
  {
  }

  /** Every safe message survives. */
  lemma SafeMessageReadsBack(m: NetworkMessage)
    requires WireSafe(m)
    ensures ParseMessage(MessageText(m)) == Ok(m)
  {
    hide ParsePayload, PayloadText, NodeText, ParseNode, Clean, Split, SafePayload, StripPrefix;
    PrefixesClean();
    NodeReadsBack(m.sender);
    PayloadReadsBack(m.payload);
    var (node, payload) := (NodeText(m.sender), PayloadText(m.payload));
    CleanConcat("sender=", node, {});
    CleanConcat("payload=", payload, {});
    var (a, b) := ("sender=" + node, "payload=" + payload);
    SplitOnPipes(a, b);
    Unprefixed("sender=", node);
    Unprefixed("payload=", payload);
  }
}
