/** The wire text round trip: exactly which messages survive printing and parsing. */
module WireFormat {
  import opened Prelude
  import opened PaxosTypes
  import opened Text
  import opened Serializer

  const COMMA: set<char> := {','}
  const LIST: set<char> := {',', '|', ']'}
  const DELIMITERS: set<char> := {',', '|', '[', ']'}

  // ----- which messages are safe ----------------------------------------------------

  ghost predicate SafeOp(op: Operation, bad: set<char>) {
    match op
    case Get(key) => Clean(key, bad)
    case Remove(key) => Clean(key, bad)
    case Set(_, _) => false
    case Clear => true
    case Demo => true
  }

  ghost predicate SafeCommand(command: Option<Operation>, bad: set<char>) {
    command.Some? ==> SafeOp(command.value, bad)
  }

  ghost predicate SafeValue(v: Value, bad: set<char>) { Clean(v.clientId, bad) && SafeCommand(v.command, bad) }

  ghost predicate SafeResult(r: CmdResult, bad: set<char>) {
    match r
    case NoOp => true
    case CmdValue(None) => true
    case CmdValue(Some(v)) => v != "none" && Clean(v, bad)
  }

  ghost predicate SafeEntry(pv: PValue) {
    pv.value.Some? ==> SafeValue(pv.value.value, LIST) && pv.value.value.command.Some?
  }

  ghost predicate SafeExecuteResult(r: ExecuteResult) { SafeValue(r.value, LIST) && SafeResult(r.cmdResult, LIST) }

  ghost predicate SafePayload(p: Payload) {
    match p
    case ClientRequest(v) => SafeValue(v, COMMA)
    case ClientResponse(id, _, _, result) => Clean(id, COMMA) && SafeResult(result, COMMA)
    case PromiseMsg(pr) => forall pv :: pv in pr.accepted ==> SafeEntry(pv)
    case AcceptMsg(_, _, v) => SafeValue(v, COMMA)
    case LearnMsg(_, v) => SafeValue(v, COMMA)
    case RetryLearns(slots) => slots != []
    case ExecutedMsg(e) => forall r :: r in e.results ==> SafeExecuteResult(r)
    case Benchmark(_, text) => Clean(text, COMMA)
    case _ => true
  }

  /** No comma and no double pipe in any text, and inside a list no pipe and no closing
      bracket either; no Set; no empty retry; no result spelled "none"; no promise entry
      that holds a value without a command. */
  ghost predicate WireSafe(m: NetworkMessage) { Clean(m.sender.address, COMMA) && SafePayload(m.payload) }

  // ----- keys and values -------------------------------------------------------------

  lemma Words()
    ensures Word("node_id") && Word("address") && Word("role")
    ensures Word("client_id") && Word("client_seq") && Word("op") && Word("success") && Word("result")
    ensures Word("slot") && Word("ballot") && Word("adu") && Word("send_timestamp") && Word("payload")
  {
  }

  lemma KeysAreKeys()
    ensures Keys(NODE_KEYS) && Keys(VALUE_KEYS) && Keys(RESPONSE_KEYS) && Keys(PREPARE_KEYS) && Keys(PROPOSAL_KEYS)
    ensures Keys(ACCEPTED_KEYS) && Keys(LEARN_KEYS) && Keys(RESULT_KEYS) && Keys(ADU_KEYS) && Keys(BENCHMARK_KEYS)
  {
    hide Word;
    Words();
    assert "node_id"[0] != "address"[0];
  }

  lemma KindsOfTags()
    ensures KindOf("ignore") == Some(KIgnore) && KindOf("client-request") == Some(KClientRequest)
    ensures KindOf("client-response") == Some(KClientResponse) && KindOf("prepare") == Some(KPrepare)
    ensures KindOf("promise") == Some(KPromise) && KindOf("accept") == Some(KAccept)
    ensures KindOf("accepted") == Some(KAccepted) && KindOf("learn") == Some(KLearn)
    ensures KindOf("heartbeat") == Some(KHeartbeat) && KindOf("retry-learns") == Some(KRetryLearns)
    ensures KindOf("executed") == Some(KExecuted) && KindOf("benchmark") == Some(KBenchmark)
    ensures KindOf("adu") == Some(KAdu)
  {
    assert "promise"[2] != "prepare"[2] && "accept"[0] != "ignore"[0];
    assert "executed"[0] != "accepted"[0] && "benchmark"[0] != "heartbeat"[0];
  }

  /** Texts that may stand in a comma-separated record. */
  ghost predicate Texts(values: seq<string>, bad: set<char>) {
    ',' in bad && ':' !in bad && forall i :: 0 <= i < |values| ==> Clean(values[i], bad)
  }

  lemma FieldsClean(keys: seq<string>, values: seq<string>, bad: set<char>)
    requires |keys| == |values| && Keys(keys) && Texts(values, bad) && bad <= DELIMITERS
    ensures forall i :: 0 <= i < |keys| ==> Clean(Fields(keys, values)[i], bad) && Fields(keys, values)[i] != ""
  {
  }

  /** A printed record splits back into its fields. */
  lemma RecordSplits(keys: seq<string>, values: seq<string>, bad: set<char>)
    requires |keys| == |values| > 0 && Keys(keys) && Texts(values, bad) && bad <= DELIMITERS
    ensures var text := Join(Fields(keys, values), ",");
      && Split(text, ",") == Fields(keys, values)
      && Clean(text, bad - {','}) && text != ""
      && forall i :: 0 <= i < |keys| ==> LastField(Fields(keys, values), keys[i]) == Some(values[i])
  {
    FieldsClean(keys, values, bad);
    SplitJoin(Fields(keys, values), ',');
    JoinClean(Fields(keys, values), ',', bad - {','});
    forall i | 0 <= i < |keys| ensures LastField(Fields(keys, values), keys[i]) == Some(values[i]) {
      LastFieldOf(keys, values, i);
    }
  }

  lemma ShortTagsClean()
    ensures Clean("ignore", COMMA) && Clean("prepare", COMMA) && Clean("promise", COMMA) && Clean("accept", COMMA)
    ensures Clean("learn", COMMA) && Clean("adu", COMMA)
  {
  }

  lemma LongTagsClean()
    ensures Clean("client-request", COMMA) && Clean("client-response", COMMA)
    ensures Clean("heartbeat", COMMA) && Clean("retry-learns", COMMA)
  {
  }

  lemma OtherTagsClean()
    ensures Clean("accepted", COMMA) && Clean("executed", COMMA) && Clean("benchmark", COMMA)
  {
  }

  lemma TagsClean(tag: string)
    requires KindOf(tag).Some?
    ensures Clean(tag, COMMA)
  {
    hide Clean;
    ShortTagsClean();
    LongTagsClean();
    OtherTagsClean();
  }

  lemma TaggedSplits(tag: string, keys: seq<string>, values: seq<string>)
    requires |keys| == |values| > 0 && Keys(keys) && Texts(values, COMMA) && tag != "" && KindOf(tag).Some?
    ensures var text := Tagged(tag, keys, values);
      && Split(text, ",")[0] == tag && Split(text, ",")[1..] == Fields(keys, values)
      && Clean(text, {})
      && forall i :: 0 <= i < |keys| ==> LastField(Fields(keys, values), keys[i]) == Some(values[i])
  {
    hide KindOf;
    RecordSplits(keys, values, COMMA);
    FieldsClean(keys, values, COMMA);
    TagsClean(tag);
    var parts := [tag] + Fields(keys, values);
    SplitJoin(parts, ',');
    JoinClean(parts, ',', {});
  }

  lemma NumberOf(parts: seq<string>, key: string, n: u64)
    requires LastField(parts, key) == Some(Dec(n))
    ensures Number(parts, key) == Some(n)
  {
    DecParses(n);
  }

  lemma FlagOf(parts: seq<string>, key: string, b: bool)
    requires LastField(parts, key) == Some(BoolText(b))
    ensures Flag(parts, key) == Some(b)
  {
  }

  lemma NumbersClean(n: nat, bad: set<char>)
    requires bad <= DELIMITERS
    ensures Clean(Dec(n), bad)
  {
  }

  lemma BoolsClean(b: bool, bad: set<char>)
    requires bad <= LIST
    ensures Clean(BoolText(b), bad)
  {
  }

  // ----- operations -----------------------------------------------------------------------

  lemma WrappedClean(prefix: string, key: string, suffix: string, bad: set<char>)
    requires Clean(prefix, bad) && Clean(key, bad) && Clean(suffix, bad)
    requires prefix != "" && prefix[|prefix| - 1] != '|' && suffix != "" && suffix[0] != '|'
    ensures Clean(prefix + key + suffix, bad)
  {
  }

  lemma Unwraps(prefix: string, body: string, suffix: string)
    ensures Unwrap(prefix + body + suffix, prefix, suffix) == Some(body)
  {
    var s := prefix + body + suffix;
    assert s[..|prefix|] == prefix && s[|prefix|..] == body + suffix;
    assert (body + suffix)[|body|..] == suffix && (body + suffix)[..|body|] == body;
  }

  lemma NotWrapped(s: string, prefix: string, suffix: string)
    requires s != "" && prefix != "" && s[0] != prefix[0]
    ensures Unwrap(s, prefix, suffix) == None
  {
  }

  /** Operations other than Set always read back; Set does exactly when its separator
      does not show up early, in the key or across its end, nor in the value. */
  lemma OperationRoundTrip(op: Operation)
    ensures ParseOp(OpText(op)) == Ok(op) <==>
      (op.Set? ==> Find(op.key + "\",", "\",\"") == None && Find(op.value, "\",\"") == None)
    ensures OpText(op) != "none"
  {
    var s := OpText(op);
    match op
    case Get(key) =>
      Unwraps("get(\"", key, "\")");
    case Remove(key) =>
      NotWrapped(s, "get(\"", "\")");
      Unwraps("remove(\"", key, "\")");
    case Set(key, value) =>
      NotWrapped(s, "get(\"", "\")");
      NotWrapped(s, "remove(\"", "\")");
      SetRoundTrip(key, value);
      assert s != "clear" && s != "demo" && s[0] == 's';
    case Clear =>
      NotWrapped(s, "get(\"", "\")");
      NotWrapped(s, "remove(\"", "\")");
      NotWrapped(s, "set(", ")");
    case Demo =>
      NotWrapped(s, "get(\"", "\")");
      NotWrapped(s, "remove(\"", "\")");
      NotWrapped(s, "set(", ")");
  }

  lemma SetTextIs(key: string, value: string)
    ensures OpText(Set(key, value)) == "set(" + ("\"" + (key + "\",\"" + value) + "\"") + ")"
  {
  }

  lemma SetRoundTrip(key: string, value: string)
    ensures ParseSet(OpText(Set(key, value))) == Some(Set(key, value)) <==>
      Find(key + "\",", "\",\"") == None && Find(value, "\",\"") == None
  {
    hide Find, Split, Unwrap, OpText;
    var both := key + "\",\"" + value;
    SetTextIs(key, value);
    Unwraps("set(", "\"" + both + "\"", ")");
    Unwraps("\"", both, "\"");
    SeparatorOnce(key, value);
  }

  lemma SeparatorOnce(key: string, value: string)
    ensures Split(key + "\",\"" + value, "\",\"") == [key, value] <==>
      Find(key + "\",", "\",\"") == None && Find(value, "\",\"") == None
  {
    hide Split;
    var sep := "\",\"";
    var both := key + sep + value;
    var early := key + "\",";
    forall j | 0 <= j < |key| ensures OccursAt(both, sep, j) <==> OccursAt(early, sep, j) {
      assert both[j..j + 3] == early[j..j + 3];
    }
    assert both[|key|..|key| + 3] == sep;
    if Find(early, sep) == None {
      forall j | 0 <= j < |key| ensures !OccursAt(both, sep, j) {
        NothingBeforeFind(early, sep, j);
      }
      FindIsFirst(both, sep, |key|);
      SplitAt(key, sep, value);
      SplitAlone(value, sep);
    } else {
      var j := Find(early, sep).value;
      assert OccursAt(early, sep, j);
      FindNotAfter(both, sep, j);
      SplitFirst(both, sep);
    }
  }

  lemma SplitAlone(s: string, pat: string)
    requires pat != ""
    ensures |Split(s, pat)| == 1 <==> Find(s, pat) == None
    ensures |Split(s, pat)| == 1 ==> Split(s, pat) == [s]
  {
  }

  lemma SplitFirst(s: string, pat: string)
    requires pat != "" && Find(s, pat).Some?
    ensures Split(s, pat)[0] == s[..Find(s, pat).value]
  {
  }

  lemma FindNotAfter(s: string, pat: string, j: nat)
    requires pat != "" && OccursAt(s, pat, j)
    ensures Find(s, pat).Some? && Find(s, pat).value <= j
  {
    match Find(s, pat)
    case None => NothingBeforeFind(s, pat, j);
    case Some(i) => if j < i { NothingBeforeFind(s, pat, j); }
  }
}
