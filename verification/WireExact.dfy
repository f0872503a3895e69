/** Nothing but safe messages ever comes off the wire, so the safe messages are exactly
    the ones that survive it. */
module WireExact {
  import opened Prelude
  import opened PaxosTypes
  import opened Text
  import opened Serializer
  import opened WireFormat
  import opened WireRoundTrip

  // ----- operations and results --------------------------------------------------------

  lemma UnwrapImage(s: string, prefix: string, suffix: string, bad: set<char>)
    requires Clean(s, bad) && Unwrap(s, prefix, suffix).Some?
    ensures Clean(Unwrap(s, prefix, suffix).value, bad)
  {
  }

  /** A text without a comma never parses as a Set. */
  lemma NoSet(s: string, bad: set<char>)
    requires Clean(s, bad) && ',' in bad
    ensures ParseSet(s) == None
  {
    hide Split;
    if Unwrap(s, "set(", ")").Some? {
      UnwrapImage(s, "set(", ")", bad);
      var inner := Unwrap(s, "set(", ")").value;
      if Unwrap(inner, "\"", "\"").Some? {
        UnwrapImage(inner, "\"", "\"", bad);
        var both := Unwrap(inner, "\"", "\"").value;
        NoSeparator(both, bad);
        SplitAlone(both, "\",\"");
      }
    }
  }

  lemma NoSeparator(s: string, bad: set<char>)
    requires Clean(s, bad) && ',' in bad
    ensures Find(s, "\",\"") == None
  {
    if Find(s, "\",\"").Some? {
      FoundHas(s, "\",\"", 1);
    }
  }

  lemma OpImage(s: string, bad: set<char>)
    requires Clean(s, bad) && ',' in bad && ParseOp(s).Ok?
    ensures SafeOp(ParseOp(s).value, bad)
  {
    hide Clean, ParseSet;
    NoSet(s, bad);
    if Unwrap(s, "get(\"", "\")").Some? {
      UnwrapImage(s, "get(\"", "\")", bad);
    } else if Unwrap(s, "remove(\"", "\")").Some? {
      UnwrapImage(s, "remove(\"", "\")", bad);
    }
  }

  lemma CommandImage(s: string, bad: set<char>)
    requires Clean(s, bad) && ',' in bad && ParseCommand(s).Ok?
    ensures SafeCommand(ParseCommand(s).value, bad)
  {
    hide ParseOp, Clean, SafeOp;
    if s != "none" {
      OpImage(s, bad);
    }
  }

  lemma ResultImage(s: string, bad: set<char>)
    requires Clean(s, bad) && ParseResult(s).Ok?
    ensures SafeResult(ParseResult(s).value, bad)
  {
  }

  // ----- fields --------------------------------------------------------------------------

  ghost predicate AllClean(parts: seq<string>, bad: set<char>) {
    forall i :: 0 <= i < |parts| ==> Clean(parts[i], bad)
  }

  lemma FieldImage(parts: seq<string>, key: string, bad: set<char>)
    requires AllClean(parts, bad) && LastField(parts, key).Some?
    ensures Clean(LastField(parts, key).value, bad)
  {
  }

  lemma ValueImage(parts: seq<string>, missing: string, bad: set<char>)
    requires AllClean(parts, bad) && ',' in bad && ParseValue(parts, missing).Ok?
    ensures SafeValue(ParseValue(parts, missing).value, bad)
  {
    hide Clean, AllClean, LastField, ParseCommand, ParseU64, SafeCommand;
    FieldImage(parts, "client_id", bad);
    FieldImage(parts, "op", bad);
    CommandImage(LastField(parts, "op").value, bad);
  }

  /** The comma-separated parts of a text: clean, and without the comma. */
  lemma PartsClean(s: string, bad: set<char>, full: set<char>)
    requires Clean(s, bad) && full <= bad + {','}
    ensures AllClean(Split(s, ","), full)
  {
    hide Split;
    forall i | 0 <= i < |Split(s, ",")| ensures Clean(Split(s, ",")[i], full) {
      SplitClean(s, ',', bad, i);
    }
  }

  lemma EntryImage(entry: string)
    requires Clean(entry, {'|', ']'}) && ParseEntry(entry).Ok? && ParseEntry(entry).value.Some?
    ensures SafeEntry(ParseEntry(entry).value.value)
  {
    hide Clean, AllClean, LastField, ParseOp, ParseU64, Split, SafeOp;
    PartsClean(entry, {'|', ']'}, LIST);
    var parts := Split(entry, ",");
    FieldImage(parts, "client_id", LIST);
    FieldImage(parts, "op", LIST);
    if LastField(parts, "op").value != "none" {
      OpImage(LastField(parts, "op").value, LIST);
    }
  }

  lemma ExecuteResultImage(entry: string)
    requires Clean(entry, {'|', ']'}) && ParseExecuteResult(entry).Ok? && ParseExecuteResult(entry).value.Some?
    ensures SafeExecuteResult(ParseExecuteResult(entry).value.value)
  {
    hide Clean, AllClean, LastField, ParseCommand, ParseU64, Split, SafeCommand, ParseResult, SafeResult, ParseBool;
    PartsClean(entry, {'|', ']'}, LIST);
    var parts := Split(entry, ",");
    FieldImage(parts, "client_id", LIST);
    FieldImage(parts, "op", LIST);
    FieldImage(parts, "result", LIST);
    CommandImage(LastField(parts, "op").value, LIST);
    ResultImage(LastField(parts, "result").value, LIST);
  }

  // ----- lists ---------------------------------------------------------------------------

  lemma {:induction false} ListImage<T(!new)>(parse: string -> Result<Option<T>>, entries: seq<string>, item: T)
    requires ParseList(parse, entries).Ok? && item in ParseList(parse, entries).value
    ensures exists entry :: entry in entries && parse(entry) == Ok(Some(item))
  {
    var (init, last) := (entries[..|entries| - 1], entries[|entries| - 1]);
    assert last in entries;
    if item in ParseList(parse, init).value {
      ListImage(parse, init, item);
    } else {
      assert parse(last) == Ok(Some(item));
    }
  }

  lemma BodyImage<T(!new)>(parse: string -> Result<Option<T>>, text: string, item: T) returns (entry: string)
    requires ParseBody(parse, Some(text)).Ok? && item in ParseBody(parse, Some(text)).value
    requires Clean(text, {']'})
    ensures Clean(entry, {'|', ']'}) && parse(entry) == Ok(Some(item))
  {
    hide Split;
    var entries := Split(text, "|");
    ListImage(parse, entries, item);
    entry :| entry in entries && parse(entry) == Ok(Some(item));
    var i :| 0 <= i < |entries| && entries[i] == entry;
    SplitClean(text, '|', {']'}, i);
    assert {']'} + {'|'} == {'|', ']'};
  }

  lemma CutImage(s: string, open: string, malformed: string)
    requires open != "" && Clean(s, {})
    requires CutList(s, open, malformed).Ok? && CutList(s, open, malformed).value.1.Some?
    ensures Clean(CutList(s, open, malformed).value.1.value, {']'})
  {
    var start := Find(s, open).value;
    var inner := s[start + |open|..];
    var end := Find(inner, "]").value;
    CleanSlice(s, {}, start + |open|, |s|);
    CleanSlice(inner, {}, 0, end);
    forall j | 0 <= j < end ensures inner[j] != ']' {
      NothingBeforeFind(inner, "]", j);
      assert inner[j..j + 1] == [inner[j]];
    }
  }

  lemma PromiseImage(s: string)
    requires Clean(s, {}) && ParsePromise(s).Ok?
    ensures SafePayload(ParsePromise(s).value)
  {
    hide Clean, SafeEntry, CutList, ParseBody, ParseEntry, Split, LastField, ParseU64;
    var open := "accepted:[";
    var malformed := "malformed promise accepted list";
    var list := CutList(s, open, malformed).value.1;
    var items := ParseBody(ParseEntry, list).value;
    forall pv | pv in items ensures SafeEntry(pv) {
      PromiseItemSafe(s, open, malformed, pv);
    }
  }

  lemma PromiseItemSafe(s: string, open: string, malformed: string, pv: PValue)
    requires open != "" && Clean(s, {}) && CutList(s, open, malformed).Ok?
    requires var body := ParseBody(ParseEntry, CutList(s, open, malformed).value.1); body.Ok? && pv in body.value
    ensures SafeEntry(pv)
  {
    hide Clean, SafeEntry, CutList, ParseEntry, Split;
    var list := CutList(s, open, malformed).value.1;
    CutImage(s, open, malformed);
    var entry := BodyImage(ParseEntry, list.value, pv);
    EntryImage(entry);
  }

  lemma ExecutedImage(s: string)
    requires Clean(s, {}) && ParseExecuted(s).Ok?
    ensures SafePayload(ParseExecuted(s).value)
  {
    hide Clean, SafeExecuteResult, CutList, ParseBody, ParseExecuteResult, Split, LastField, ParseU64;
    var open := "results:[";
    var malformed := "malformed executed results list";
    var list := CutList(s, open, malformed).value.1;
    var items := ParseBody(ParseExecuteResult, list).value;
    forall r | r in items ensures SafeExecuteResult(r) {
      ResultItemSafe(s, open, malformed, r);
    }
  }

  lemma ResultItemSafe(s: string, open: string, malformed: string, r: ExecuteResult)
    requires open != "" && Clean(s, {}) && CutList(s, open, malformed).Ok?
    requires var body := ParseBody(ParseExecuteResult, CutList(s, open, malformed).value.1); body.Ok? && r in body.value
    ensures SafeExecuteResult(r)
  {
    hide Clean, SafeExecuteResult, CutList, ParseExecuteResult, Split;
    var list := CutList(s, open, malformed).value.1;
    CutImage(s, open, malformed);
    var entry := BodyImage(ParseExecuteResult, list.value, r);
    ExecuteResultImage(entry);
  }

  // ----- payloads and messages -------------------------------------------------------------

  lemma {:induction false} SlotsImage(tokens: seq<string>)
    requires ParseSlots(tokens).Ok?
    ensures |ParseSlots(tokens).value| == |tokens|
  {
    hide ParseU64;
    if tokens != [] {
      SlotsImage(tokens[..|tokens| - 1]);
    }
  }

  lemma RetryImage(parts: seq<string>)
    requires ParseRetryLearns(parts).Ok?
    ensures SafePayload(ParseRetryLearns(parts).value)
  {
  }

  lemma ResponseImage(parts: seq<string>)
    requires AllClean(parts, COMMA) && ParseClientResponse(parts).Ok?
    ensures SafePayload(ParseClientResponse(parts).value)
  {
    hide Clean, AllClean, LastField, ParseU64, ParseBool, ParseResult, SafeResult;
    FieldImage(parts, "client_id", COMMA);
    FieldImage(parts, "result", COMMA);
    ResultImage(LastField(parts, "result").value, COMMA);
  }

  lemma BenchmarkImage(parts: seq<string>)
    requires AllClean(parts, COMMA) && ParseBenchmark(parts).Ok?
    ensures SafePayload(ParseBenchmark(parts).value)
  {
    hide Clean, AllClean, LastField, ParseU64;
    FieldImage(parts, "payload", COMMA);
  }

  lemma ProposalImage(parts: seq<string>)
    requires AllClean(parts, COMMA)
    ensures ParseClientRequest(parts).Ok? ==> SafePayload(ParseClientRequest(parts).value)
    ensures ParseAccept(parts).Ok? ==> SafePayload(ParseAccept(parts).value)
    ensures ParseLearn(parts).Ok? ==> SafePayload(ParseLearn(parts).value)
  {
    hide Clean, AllClean, Number, ParseValue, SafeValue;
    if ParseValue(parts, "bad client-request").Ok? { ValueImage(parts, "bad client-request", COMMA); }
    if ParseValue(parts, "bad accept").Ok? { ValueImage(parts, "bad accept", COMMA); }
    if ParseValue(parts, "bad learn").Ok? { ValueImage(parts, "bad learn", COMMA); }
  }

  lemma PayloadImage(s: string)
    requires Clean(s, {}) && ParsePayload(s).Ok?
    ensures SafePayload(ParsePayload(s).value)
  {
    hide Clean, AllClean, LastField, Split, KindOf, ParseU64, ParseClientRequest, ParseClientResponse, ParsePromise,
      ParseAccept, ParseLearn, ParseRetryLearns, ParseExecuted, ParseBenchmark, SafeValue, SafeResult, SafeEntry,
      SafeExecuteResult;
    PartsClean(s, {}, COMMA);
    var fields := Split(s, ",")[1..];
    assert AllClean(fields, COMMA) by { TailClean(Split(s, ","), COMMA); }
    match KindOf(Split(s, ",")[0])
    case Some(KClientRequest) => ProposalImage(fields);
    case Some(KClientResponse) => ResponseImage(fields);
    case Some(KPromise) => PromiseImage(s);
    case Some(KAccept) => ProposalImage(fields);
    case Some(KLearn) => ProposalImage(fields);
    case Some(KRetryLearns) => RetryImage(fields);
    case Some(KExecuted) => ExecutedImage(s);
    case Some(KBenchmark) => BenchmarkImage(fields);
    case _ =>
  }

  lemma TailClean(parts: seq<string>, bad: set<char>)
    requires parts != [] && AllClean(parts, bad)
    ensures AllClean(parts[1..], bad)
  {
  }

  lemma NodeImage(s: string)
    requires Clean(s, {}) && ParseNode(s).Ok?
    ensures Clean(ParseNode(s).value.address, COMMA)
  {
    hide Clean, AllClean, LastField, Split, RolesKnown, ParseU64, ParseRole;
    PartsClean(s, {}, COMMA);
    FieldImage(Split(s, ","), "address", COMMA);
  }

  /** Whatever text arrives, a message that parses is safe. */
  lemma OnlySafeMessagesParse(s: string)
    ensures ParseMessage(s).Ok? ==> WireSafe(ParseMessage(s).value)
  {
    hide Clean, Split, ParseNode, ParsePayload, SafePayload;
    if ParseMessage(s).Ok? {
      var parts := Split(s, "||");
      SplitOnPipesIsClean(s, 0);
      SplitOnPipesIsClean(s, 1);
      CleanSlice(parts[0], {}, 7, |parts[0]|);
      CleanSlice(parts[1], {}, 8, |parts[1]|);
      var (sender, payload) := (StripPrefix(parts[0], "sender=").value, StripPrefix(parts[1], "payload=").value);
      assert sender == parts[0][7..|parts[0]|] && payload == parts[1][8..|parts[1]|];
      NodeImage(sender);
      PayloadImage(payload);
    }
  }

  /** Exactly the safe messages come back as they were sent, and exactly those are ever
      parsed from any text. */
  lemma TextRoundTrip(m: NetworkMessage)
    ensures ParseMessage(MessageText(m)) == Ok(m) <==> WireSafe(m)
    ensures (exists s :: ParseMessage(s) == Ok(m)) <==> WireSafe(m)
  {
    hide ParseMessage, MessageText, WireSafe;
    if WireSafe(m) {
      SafeMessageReadsBack(m);
    }
    forall s | ParseMessage(s) == Ok(m) ensures WireSafe(m) {
      OnlySafeMessagesParse(s);
    }
  }

  /** The plainest loss: no client request to set a key ever arrives as such. */
  lemma SetsAreLost(sender: Node, key: string, value: string, id: string, n: u64, s: string)
    ensures ParseMessage(s) != Ok(NetworkMessage(sender, ClientRequest(Value.Value(Some(Set(key, value)), id, n))))
  {
    hide ParseMessage, MessageText;
    TextRoundTrip(NetworkMessage(sender, ClientRequest(Value.Value(Some(Set(key, value)), id, n))));
  }
}
