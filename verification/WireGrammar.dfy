/** Which texts are read as which message, for every text that can arrive, in terms of the
    fields and lists that stand in it. */
module WireGrammar {
  import opened Prelude
  import opened PaxosTypes
  import opened Text
  import opened Serializer
  import opened WireFormat
  import opened WireExact

  // ----- fields ------------------------------------------------------------------------

  /** The part begins with the key and a colon. */
  predicate Names(part: string, key: string) { Field(key, "") <= part }

  /** Some part gives the key this value, and no later part names the key. */
  ghost predicate FieldIs(parts: seq<string>, key: string, value: string) {
    exists i :: 0 <= i < |parts| && parts[i] == Field(key, value) && NotNamedAfter(parts, i, key)
  }

  ghost predicate NotNamedAfter(parts: seq<string>, i: int, key: string) {
    forall j :: i < j < |parts| ==> 0 <= j && !Names(parts[j], key)
  }

  /** Decimal digits with the value `n`, perhaps after a plus sign. */
  ghost predicate Denotes(s: string, n: u64) { exists digits :: DigitsOf(s, digits, n) }

  ghost predicate DigitsOf(s: string, digits: string, n: u64) {
    (s == digits || s == "+" + digits) && digits != "" && AllDigits(digits) && DigitsValue(digits) == n
  }

  ghost predicate NumberIs(parts: seq<string>, key: string, n: u64) {
    exists value :: FieldIs(parts, key, value) && Denotes(value, n)
  }

  ghost predicate FlagIs(parts: seq<string>, key: string, b: bool) { FieldIs(parts, key, BoolText(b)) }

  lemma NamesIs(part: string, key: string)
    requires ':' !in key
    ensures HasKey(part, key) <==> Names(part, key)
    ensures forall v :: part == Field(key, v) ==> KeyValue(part) == (key, Some(v))
    ensures Names(part, key) ==> KeyValue(part).1.Some? && part == Field(key, KeyValue(part).1.value)
  {
    forall v | part == Field(key, v) ensures KeyValue(part) == (key, Some(v)) {
      KeyValueOfField(key, v);
    }
    if Names(part, key) {
      var v := part[|key| + 1..];
      assert part == Field(key, "") + v && Field(key, "") + v == Field(key, v);
    }
    if HasKey(part, key) {
      var v := KeyValue(part).1.value;
      assert part == Field(key, v) && Field(key, v) == Field(key, "") + v;
    }
  }

  /** The last field of a key is the one that no later part overwrites. */
  lemma {:induction false} LastFieldIs(parts: seq<string>, key: string, value: string)
    requires ':' !in key
    ensures LastField(parts, key) == Some(value) <==> FieldIs(parts, key, value)
  {
    hide KeyValue, HasKey, Names, Field;
    if parts != [] {
      var (init, last) := (parts[..|parts| - 1], parts[|parts| - 1]);
      LastFieldIs(init, key, value);
      NamesIs(last, key);
      NamesFields(last, key);
      FieldIsSnoc(parts, key, value);
    }
  }

  lemma NamesFields(part: string, key: string)
    ensures forall v :: part == Field(key, v) ==> Names(part, key)
  {
    forall v | part == Field(key, v) ensures Names(part, key) {
      assert Field(key, v) == Field(key, "") + v;
    }
  }

  lemma FieldIsSnoc(parts: seq<string>, key: string, value: string)
    requires parts != []
    ensures var (init, last) := (parts[..|parts| - 1], parts[|parts| - 1]);
      FieldIs(parts, key, value) <==> if Names(last, key) then last == Field(key, value) else FieldIs(init, key, value)
  {
    hide Names, Field;
    var (init, last) := (parts[..|parts| - 1], parts[|parts| - 1]);
    NamesFields(last, key);
    if FieldIs(parts, key, value) && !Names(last, key) {
      var i :| 0 <= i < |parts| && parts[i] == Field(key, value) && NotNamedAfter(parts, i, key);
      assert init[i] == Field(key, value) && NotNamedAfter(init, i, key);
    }
    if FieldIs(init, key, value) && !Names(last, key) {
      var i :| 0 <= i < |init| && init[i] == Field(key, value) && NotNamedAfter(init, i, key);
      assert parts[i] == Field(key, value);
      forall j | i < j < |parts| ensures !Names(parts[j], key) {
        if j < |init| { assert parts[j] == init[j]; }
      }
      assert NotNamedAfter(parts, i, key);
    }
    if last == Field(key, value) {
      assert NotNamedAfter(parts, |parts| - 1, key);
    }
    if FieldIs(parts, key, value) && Names(last, key) {
      var i :| 0 <= i < |parts| && parts[i] == Field(key, value) && NotNamedAfter(parts, i, key);
      assert i == |parts| - 1;
    }
  }

  lemma DigitsAreRead(s: string, digits: string, n: u64)
    requires DigitsOf(s, digits, n)
    ensures ParseU64(s) == Some(n)
  {
    assert IsDigit(digits[0]);
    if s != digits {
      assert s[0] == '+' && s[1..] == digits;
    }
  }

  lemma ParsesWhatItDenotes(s: string, n: u64)
    ensures ParseU64(s) == Some(n) <==> Denotes(s, n)
  {
    if ParseU64(s) == Some(n) {
      assert s == AfterPlus(s) || s == "+" + AfterPlus(s);
      assert DigitsOf(s, AfterPlus(s), n);
    } else if Denotes(s, n) {
      var digits :| DigitsOf(s, digits, n);
      DigitsAreRead(s, digits, n);
    }
  }

  lemma NumberIsRead(parts: seq<string>, key: string)
    requires ':' !in key
    ensures forall n: u64 :: Number(parts, key) == Some(n) <==> NumberIs(parts, key, n)
  {
    hide LastField, ParseU64, FieldIs, Denotes;
    forall n: u64 ensures Number(parts, key) == Some(n) <==> NumberIs(parts, key, n) {
      forall v ensures LastField(parts, key) == Some(v) <==> FieldIs(parts, key, v) {
        LastFieldIs(parts, key, v);
      }
      if LastField(parts, key).Some? {
        ParsesWhatItDenotes(LastField(parts, key).value, n);
      }
    }
  }

  lemma FieldIsRead(parts: seq<string>, key: string)
    requires ':' !in key
    ensures forall v :: LastField(parts, key) == Some(v) <==> FieldIs(parts, key, v)
  {
    forall v ensures LastField(parts, key) == Some(v) <==> FieldIs(parts, key, v) {
      LastFieldIs(parts, key, v);
    }
  }

  lemma FlagIsRead(parts: seq<string>, key: string)
    requires ':' !in key
    ensures forall b :: Flag(parts, key) == Some(b) <==> FlagIs(parts, key, b)
  {
    hide LastField, FieldIs;
    FieldIsRead(parts, key);
    assert BoolText(true) == "true" && BoolText(false) == "false" && "true" != "false";
  }

  // ----- operations, results, roles -----------------------------------------------------

  lemma OpPrintsBack(s: string)
    ensures ParseOp(s).Ok? ==> s == OpText(ParseOp(s).value)
  {
    hide ParseSet, Unwrap;
    UnwrapWraps(s, "get(\"", "\")");
    UnwrapWraps(s, "remove(\"", "\")");
    SetPrintsBack(s);
  }

  lemma UnwrapWraps(s: string, prefix: string, suffix: string)
    ensures Unwrap(s, prefix, suffix).Some? ==> s == prefix + Unwrap(s, prefix, suffix).value + suffix
  {
    if Unwrap(s, prefix, suffix).Some? {
      var v := Unwrap(s, prefix, suffix).value;
      assert s == prefix + (v + suffix);
    }
  }

  lemma SetPrintsBack(s: string)
    ensures ParseSet(s).Some? ==> s == OpText(ParseSet(s).value)
  {
    hide Find, Split, Unwrap, OpText;
    if ParseSet(s).Some? {
      UnwrapWraps(s, "set(", ")");
      var inner := Unwrap(s, "set(", ")").value;
      UnwrapWraps(inner, "\"", "\"");
      var both := Unwrap(inner, "\"", "\"").value;
      TwoParts(both, "\",\"");
      SetTextIs(ParseSet(s).value.key, ParseSet(s).value.value);
    }
  }

  lemma TwoParts(s: string, pat: string)
    requires pat != "" && |Split(s, pat)| == 2
    ensures s == Split(s, pat)[0] + pat + Split(s, pat)[1]
  {
  }

  /** A command in a text without commas: as printed, and no Set. */
  ghost predicate CommandIs(s: string, command: Option<Operation>) {
    s == CommandText(command) && (command.Some? ==> !command.value.Set?)
  }

  lemma CommandIsRead(s: string, bad: set<char>)
    requires Clean(s, bad) && ',' in bad
    ensures forall c :: ParseCommand(s) == Ok(c) <==> CommandIs(s, c)
    ensures forall o :: s != "none" ==> (ParseOp(s) == Ok(o) <==> CommandIs(s, Some(o)))
  {
    hide Clean, ParseOp, OpText;
    OpPrintsBack(s);
    if ParseOp(s).Ok? {
      OpImage(s, bad);
    }
    forall o: Operation ensures OpText(o) != "none" && (!o.Set? ==> ParseOp(OpText(o)) == Ok(o)) {
      OperationRoundTrip(o);
    }
  }

  /** A result as printed; the text "none" after the colon is no result. */
  ghost predicate ResultIs(s: string, r: CmdResult) { s == ResultText(r) && r != CmdValue(Some("none")) }

  lemma ResultIsRead(s: string)
    ensures forall r :: ParseResult(s) == Ok(r) <==> ResultIs(s, r)
  {
    forall r ensures ParseResult(s) == Ok(r) <==> ResultIs(s, r) {
      if ParseResult(s) == Ok(r) && s != "no-op" {
        var rest := StripPrefix(s, "cmd-value:").value;
        assert rest == "none" ==> s == "cmd-value:none";
      }
      if ResultIs(s, r) && r != NoOp {
        var rest := if r.result == None then "none" else r.result.value;
        assert "cmd-value:none" == "cmd-value:" + "none";
        assert s == "cmd-value:" + rest && s[..10] == "cmd-value:" && s[10..] == rest;
        assert s[0] != "no-op"[0];
      }
    }
  }

  lemma RoleIsRead(s: string)
    ensures forall r :: ParseRole(s) == Some(r) <==> s == RoleText(r)
  {
    assert "proposer"[0] != "acceptor"[0] && "learner"[0] != "client"[0];
    assert |"client"| == 6 && |"coordinator"| == 11 && |"proposer"| == 8 && |"acceptor"| == 8 && |"learner"| == 7;
  }

  // ----- records without lists ------------------------------------------------------------

  ghost predicate ValueIs(parts: seq<string>, v: Value) {
    && FieldIs(parts, "client_id", v.clientId) && NumberIs(parts, "client_seq", v.clientSeq)
    && CommandFieldIs(parts, v.command)
  }

  ghost predicate CommandFieldIs(parts: seq<string>, command: Option<Operation>) {
    exists s :: FieldIs(parts, "op", s) && CommandIs(s, command)
  }

  ghost predicate ResultFieldIs(parts: seq<string>, r: CmdResult) {
    exists s :: FieldIs(parts, "result", s) && ResultIs(s, r)
  }

  lemma FieldsAreRead(parts: seq<string>)
    ensures forall v :: LastField(parts, "client_id") == Some(v) <==> FieldIs(parts, "client_id", v)
    ensures forall v :: LastField(parts, "op") == Some(v) <==> FieldIs(parts, "op", v)
    ensures forall v :: LastField(parts, "result") == Some(v) <==> FieldIs(parts, "result", v)
    ensures forall v :: LastField(parts, "payload") == Some(v) <==> FieldIs(parts, "payload", v)
    ensures forall b :: Flag(parts, "success") == Some(b) <==> FlagIs(parts, "success", b)
  {
    hide LastField, FieldIs, Flag, FlagIs;
    FieldIsRead(parts, "client_id");
    FieldIsRead(parts, "op");
    FieldIsRead(parts, "result");
    FieldIsRead(parts, "payload");
    FlagIsRead(parts, "success");
  }

  lemma NumbersAreRead(parts: seq<string>)
    ensures forall n: u64 :: Number(parts, "client_seq") == Some(n) <==> NumberIs(parts, "client_seq", n)
    ensures forall n: u64 :: Number(parts, "slot") == Some(n) <==> NumberIs(parts, "slot", n)
    ensures forall n: u64 :: Number(parts, "ballot") == Some(n) <==> NumberIs(parts, "ballot", n)
    ensures forall n: u64 :: Number(parts, "adu") == Some(n) <==> NumberIs(parts, "adu", n)
    ensures forall n: u64 :: Number(parts, "send_timestamp") == Some(n) <==> NumberIs(parts, "send_timestamp", n)
  {
    hide Number, NumberIs;
    NumberIsRead(parts, "client_seq");
    NumberIsRead(parts, "slot");
    NumberIsRead(parts, "ballot");
    NumberIsRead(parts, "adu");
    NumberIsRead(parts, "send_timestamp");
  }

  lemma CommandFieldIsRead(parts: seq<string>, bad: set<char>)
    requires AllClean(parts, bad) && ',' in bad
    ensures forall c :: CommandFieldIs(parts, c) <==>
      LastField(parts, "op").Some? && ParseCommand(LastField(parts, "op").value) == Ok(c)
  {
    hide LastField, FieldIs, ParseCommand, CommandIs, Clean;
    FieldIsRead(parts, "op");
    if LastField(parts, "op").Some? {
      FieldImage(parts, "op", bad);
      CommandIsRead(LastField(parts, "op").value, bad);
    }
  }

  lemma ResultFieldIsRead(parts: seq<string>)
    ensures forall r :: ResultFieldIs(parts, r) <==>
      LastField(parts, "result").Some? && ParseResult(LastField(parts, "result").value) == Ok(r)
  {
    hide LastField, FieldIs, ParseResult, ResultIs;
    FieldIsRead(parts, "result");
    if LastField(parts, "result").Some? {
      ResultIsRead(LastField(parts, "result").value);
    }
  }

  lemma ValueIsRead(parts: seq<string>, missing: string)
    requires AllClean(parts, COMMA)
    ensures forall v :: ParseValue(parts, missing) == Ok(v) <==> ValueIs(parts, v)
  {
    hide LastField, FieldIs, ParseCommand, CommandFieldIs, AllClean, Number, NumberIs;
    FieldsAreRead(parts);
    NumbersAreRead(parts);
    CommandFieldIsRead(parts, COMMA);
  }

  /** What the fields of a payload say; the payloads with lists are below. */
  ghost predicate RecordIs(fields: seq<string>, p: Payload) {
    match p
    case ClientRequest(v) => ValueIs(fields, v)
    case ClientResponse(id, n, success, r) =>
      && FieldIs(fields, "client_id", id) && NumberIs(fields, "client_seq", n) && FlagIs(fields, "success", success)
      && ResultFieldIs(fields, r)
    case PrepareMsg(slot, ballot) => NumberIs(fields, "slot", slot) && NumberIs(fields, "ballot", ballot)
    case AcceptMsg(slot, ballot, v) =>
      NumberIs(fields, "slot", slot) && NumberIs(fields, "ballot", ballot) && ValueIs(fields, v)
    case AcceptedMsg(slot, ballot, success) =>
      NumberIs(fields, "slot", slot) && NumberIs(fields, "ballot", ballot) && FlagIs(fields, "success", success)
    case LearnMsg(slot, v) => NumberIs(fields, "slot", slot) && ValueIs(fields, v)
    case Benchmark(stamp, text) => NumberIs(fields, "send_timestamp", stamp) && FieldIs(fields, "payload", text)
    case RetryLearns(slots) => exists list :: fields == [Field("slots", list)] && SlotsAre(Split(list, "|"), slots)
    case Adu(slot) => |fields| == 1 && Denotes(fields[0], slot)
    case _ => true
  }

  ghost predicate SlotsAre(tokens: seq<string>, slots: seq<Slot>) {
    |tokens| == |slots| && forall i :: 0 <= i < |tokens| ==> Denotes(tokens[i], slots[i])
  }

  lemma ProposalIsRead(parts: seq<string>)
    requires AllClean(parts, COMMA)
    ensures forall p :: ParseClientRequest(parts) == Ok(p) <==> p.ClientRequest? && RecordIs(parts, p)
    ensures forall p :: ParseAccept(parts) == Ok(p) <==> p.AcceptMsg? && RecordIs(parts, p)
    ensures forall p :: ParseLearn(parts) == Ok(p) <==> p.LearnMsg? && RecordIs(parts, p)
  {
    hide ParseValue, ValueIs, Number, NumberIs, AllClean;
    NumbersAreRead(parts);
    ValueIsRead(parts, "bad client-request");
    ValueIsRead(parts, "bad accept");
    ValueIsRead(parts, "bad learn");
  }

  lemma PlainIsRead(parts: seq<string>)
    ensures forall p :: ParsePrepare(parts) == Ok(p) <==> p.PrepareMsg? && RecordIs(parts, p)
    ensures forall p :: ParseAccepted(parts) == Ok(p) <==> p.AcceptedMsg? && RecordIs(parts, p)
    ensures forall p :: ParseBenchmark(parts) == Ok(p) <==> p.Benchmark? && RecordIs(parts, p)
  {
    hide LastField, FieldIs, Number, NumberIs, Flag, FlagIs;
    NumbersAreRead(parts);
    FieldsAreRead(parts);
  }

  lemma ResponseIsRead(parts: seq<string>)
    ensures forall p :: ParseClientResponse(parts) == Ok(p) <==> p.ClientResponse? && RecordIs(parts, p)
  {
    hide LastField, FieldIs, Number, NumberIs, Flag, FlagIs, ParseResult, ResultFieldIs;
    NumbersAreRead(parts);
    FieldsAreRead(parts);
    ResultFieldIsRead(parts);
  }

  lemma {:induction false} SlotsAreRead(tokens: seq<string>, slots: seq<Slot>)
    ensures ParseSlots(tokens) == Ok(slots) <==> SlotsAre(tokens, slots)
  {
    hide ParseU64, Denotes;
    if tokens != [] {
      var (init, last) := (tokens[..|tokens| - 1], tokens[|tokens| - 1]);
      if slots != [] {
        var (first, n) := (slots[..|slots| - 1], slots[|slots| - 1]);
        SlotsAreRead(init, first);
        ParsesWhatItDenotes(last, n);
        assert slots == first + [n];
      }
    }
  }

  lemma RetryIsRead(parts: seq<string>, p: Payload)
    ensures ParseRetryLearns(parts) == Ok(p) <==> p.RetryLearns? && RecordIs(parts, p)
  {
    hide Split, ParseSlots, SlotsAre;
    if ParseRetryLearns(parts) == Ok(p) {
      var list := StripPrefix(parts[0], "slots:").value;
      SlotsAreRead(Split(list, "|"), p.slots);
      assert "slots" + ":" == "slots:";
      assert parts == [Field("slots", list)];
    }
    if p.RetryLearns? && RecordIs(parts, p) {
      var list :| parts == [Field("slots", list)] && SlotsAre(Split(list, "|"), p.slots);
      SlotsAreRead(Split(list, "|"), p.slots);
      assert Field("slots", list) == "slots:" + list;
      assert parts[0][..6] == "slots:" && parts[0][6..] == list;
    }
  }

  lemma SlotsOrAduIsRead(parts: seq<string>)
    ensures forall p :: ParseRetryLearns(parts) == Ok(p) <==> p.RetryLearns? && RecordIs(parts, p)
    ensures forall p :: ParseAdu(parts) == Ok(p) <==> p.Adu? && RecordIs(parts, p)
  {
    hide ParseU64, Denotes, ParseRetryLearns;
    forall p ensures ParseRetryLearns(parts) == Ok(p) <==> p.RetryLearns? && RecordIs(parts, p) {
      RetryIsRead(parts, p);
    }
    forall s, n: u64 ensures ParseU64(s) == Some(n) <==> Denotes(s, n) {
      ParsesWhatItDenotes(s, n);
    }
  }

  // ----- lists -----------------------------------------------------------------------------

  /** The items of the entries that are not skipped, in order. */
  ghost predicate ListIs<T>(says: (string, T) -> bool, skipped: string -> bool, entries: seq<string>, items: seq<T>) {
    if entries == [] then items == []
    else
      var (init, last) := (entries[..|entries| - 1], entries[|entries| - 1]);
      if skipped(last) then ListIs(says, skipped, init, items)
      else items != [] && says(last, items[|items| - 1]) && ListIs(says, skipped, init, items[..|items| - 1])
  }

  ghost predicate Reads<T(!new)>(parse: string -> Result<Option<T>>, says: (string, T) -> bool, skipped: string -> bool,
                                 entry: string)
  {
    && (parse(entry) == Ok(None) <==> skipped(entry))
    && forall t :: parse(entry) == Ok(Some(t)) <==> says(entry, t) && !skipped(entry)
  }

  lemma {:induction false} ListIsRead<T(!new)>(parse: string -> Result<Option<T>>, says: (string, T) -> bool,
                                               skipped: string -> bool, entries: seq<string>, items: seq<T>)
    requires forall i :: 0 <= i < |entries| ==> Reads(parse, says, skipped, entries[i])
    ensures ParseList(parse, entries) == Ok(items) <==> ListIs(says, skipped, entries, items)
  {
    if entries != [] {
      var (init, last) := (entries[..|entries| - 1], entries[|entries| - 1]);
      assert Reads(parse, says, skipped, last);
      if skipped(last) {
        ListIsRead(parse, says, skipped, init, items);
      } else if items != [] {
        var (first, t) := (items[..|items| - 1], items[|items| - 1]);
        assert items == first + [t];
        ListIsRead(parse, says, skipped, init, first);
        LastItem(parse, entries, items);
      }
    }
  }

  lemma LastItem<T>(parse: string -> Result<Option<T>>, entries: seq<string>, items: seq<T>)
    requires entries != [] && items != []
    requires parse(entries[|entries| - 1]) != Ok(None)
    ensures ParseList(parse, entries) == Ok(items) <==>
      && ParseList(parse, entries[..|entries| - 1]) == Ok(items[..|items| - 1])
      && parse(entries[|entries| - 1]) == Ok(Some(items[|items| - 1]))
  {
    var (before, last) := (ParseList(parse, entries[..|entries| - 1]), parse(entries[|entries| - 1]));
    if before.Ok? && last.Ok? {
      SnocIs(items, before.value, last.value.value);
      assert ParseList(parse, entries) == Ok(before.value + [last.value.value]);
    }
  }

  lemma SnocIs<T>(items: seq<T>, before: seq<T>, last: T)
    requires items != []
    ensures items == before + [last] <==> items[..|items| - 1] == before && items[|items| - 1] == last
  {
  }

  /** A promise entry: all five fields, and either no operation or one that is no Set. */
  ghost predicate EntryIs(entry: string, pv: PValue) {
    var parts := Split(entry, ",");
    && NumberIs(parts, "slot", pv.slot) && NumberIs(parts, "ballot", pv.ballot)
    && match pv.value
       case Some(v) => v.command.Some? && ValueIs(parts, v)
       case None => Has(parts, "client_id") && HasNumber(parts, "client_seq") && CommandFieldIs(parts, None)
  }

  ghost predicate Has(parts: seq<string>, key: string) { exists v :: FieldIs(parts, key, v) }

  ghost predicate HasNumber(parts: seq<string>, key: string) { exists n :: NumberIs(parts, key, n) }

  ghost predicate HasFlag(parts: seq<string>, key: string) { exists b :: FlagIs(parts, key, b) }

  ghost predicate EntrySkipped(entry: string) {
    var parts := Split(entry, ",");
    !(HasNumber(parts, "slot") && HasNumber(parts, "ballot") && Has(parts, "client_id") && HasNumber(parts, "client_seq")
      && Has(parts, "op"))
  }

  ghost predicate ExecuteResultIs(entry: string, r: ExecuteResult) {
    var parts := Split(entry, ",");
    && NumberIs(parts, "slot", r.slot) && ValueIs(parts, r.value)
    && FlagIs(parts, "success", r.success) && ResultFieldIs(parts, r.cmdResult)
  }

  ghost predicate ExecuteResultSkipped(entry: string) {
    var parts := Split(entry, ",");
    !(HasNumber(parts, "slot") && Has(parts, "client_id") && HasNumber(parts, "client_seq") && Has(parts, "op")
      && HasFlag(parts, "success") && Has(parts, "result"))
  }

  lemma WhatIsThere(parts: seq<string>)
    ensures HasNumber(parts, "slot") <==> Number(parts, "slot").Some?
    ensures HasNumber(parts, "ballot") <==> Number(parts, "ballot").Some?
    ensures HasNumber(parts, "client_seq") <==> Number(parts, "client_seq").Some?
    ensures Has(parts, "client_id") <==> LastField(parts, "client_id").Some?
    ensures Has(parts, "op") <==> LastField(parts, "op").Some?
    ensures Has(parts, "result") <==> LastField(parts, "result").Some?
    ensures HasFlag(parts, "success") <==> Flag(parts, "success").Some?
  {
    hide LastField, FieldIs, Number, NumberIs, Flag, FlagIs, Has, HasNumber, HasFlag;
    NumberIsThere(parts, "slot");
    NumberIsThere(parts, "ballot");
    NumberIsThere(parts, "client_seq");
    FieldIsThere(parts, "client_id");
    FieldIsThere(parts, "op");
    FieldIsThere(parts, "result");
    FlagIsThere(parts, "success");
  }

  lemma NumberIsThere(parts: seq<string>, key: string)
    requires ':' !in key
    ensures HasNumber(parts, key) <==> Number(parts, key).Some?
  {
    hide Number, NumberIs;
    NumberIsRead(parts, key);
    if Number(parts, key).Some? {
      assert NumberIs(parts, key, Number(parts, key).value);
    }
  }

  lemma FieldIsThere(parts: seq<string>, key: string)
    requires ':' !in key
    ensures Has(parts, key) <==> LastField(parts, key).Some?
  {
    hide LastField, FieldIs;
    FieldIsRead(parts, key);
    if LastField(parts, key).Some? {
      assert FieldIs(parts, key, LastField(parts, key).value);
    }
  }

  lemma FlagIsThere(parts: seq<string>, key: string)
    requires ':' !in key
    ensures HasFlag(parts, key) <==> Flag(parts, key).Some?
  {
    hide Flag, FlagIs;
    FlagIsRead(parts, key);
    if Flag(parts, key).Some? {
      assert FlagIs(parts, key, Flag(parts, key).value);
    }
  }

  lemma EntryIsRead(entry: string)
    requires Clean(entry, {'|', ']'})
    ensures ParseEntry(entry) == Ok(None) <==> EntrySkipped(entry)
    ensures forall pv :: ParseEntry(entry) == Ok(Some(pv)) <==> EntryIs(entry, pv) && !EntrySkipped(entry)
  {
    hide Clean, AllClean, LastField, FieldIs, ParseOp, ParseCommand, CommandIs, Number, NumberIs, Flag, FlagIs, Split;
    var parts := Split(entry, ",");
    PartsClean(entry, {'|', ']'}, LIST);
    WhatIsThere(parts);
    NumbersAreRead(parts);
    FieldsAreRead(parts);
    if LastField(parts, "op").Some? {
      FieldImage(parts, "op", LIST);
      CommandIsRead(LastField(parts, "op").value, LIST);
      NoneIsNoCommand(LastField(parts, "op").value);
    }
  }

  lemma NoneIsNoCommand(s: string)
    ensures CommandIs(s, None) <==> s == "none"
    ensures forall o :: CommandIs(s, Some(o)) ==> s != "none"
  {
    forall o: Operation ensures OpText(o) != "none" {
      OperationRoundTrip(o);
    }
  }

  lemma ExecuteResultIsRead(entry: string)
    requires Clean(entry, {'|', ']'})
    ensures ParseExecuteResult(entry) == Ok(None) <==> ExecuteResultSkipped(entry)
    ensures forall r :: ParseExecuteResult(entry) == Ok(Some(r)) <==> ExecuteResultIs(entry, r) && !ExecuteResultSkipped(entry)
  {
    hide Clean, AllClean, LastField, FieldIs, ParseCommand, CommandFieldIs, Number, NumberIs, Flag, FlagIs, Split, ParseResult,
      ResultFieldIs, Has, HasNumber, HasFlag;
    var parts := Split(entry, ",");
    PartsClean(entry, {'|', ']'}, LIST);
    WhatIsThere(parts);
    NumbersAreRead(parts);
    FieldsAreRead(parts);
    CommandFieldIsRead(parts, LIST);
    ResultFieldIsRead(parts);
  }

  // ----- payloads with lists ---------------------------------------------------------------

  /** Without the opening marker there is no list.  With it, the list runs from its first
      occurrence to the next closing bracket; whatever follows is ignored. */
  ghost predicate CutAs(s: string, open: string, header: string, list: Option<string>) {
    match list
    case None => header == s && NowhereBefore(s, open, |s|)
    case Some(l) => NowhereBefore(s, open, |header|) && ']' !in l && header + open + l + "]" <= s
  }

  ghost predicate NowhereBefore(s: string, pat: string, n: nat) { forall i :: 0 <= i < n ==> !OccursAt(s, pat, i) }

  lemma FoundIs(s: string, pat: string)
    requires pat != "" && Find(s, pat).Some?
    ensures OccursAt(s, pat, Find(s, pat).value) && NowhereBefore(s, pat, Find(s, pat).value)
  {
    hide Find, OccursAt;
    forall i: nat | i < Find(s, pat).value ensures !OccursAt(s, pat, i) {
      NothingBeforeFind(s, pat, i);
    }
    FoundOccurs(s, pat);
  }

  lemma FoundOccurs(s: string, pat: string)
    requires pat != "" && Find(s, pat).Some?
    ensures OccursAt(s, pat, Find(s, pat).value)
  {
    hide Find;
  }

  lemma NotFoundIs(s: string, pat: string)
    requires pat != ""
    ensures Find(s, pat) == None <==> NowhereBefore(s, pat, |s|)
  {
    hide Find, OccursAt;
    if Find(s, pat) == None {
      forall i: nat | i < |s| ensures !OccursAt(s, pat, i) {
        NothingBeforeFind(s, pat, i);
      }
    } else {
      FoundOccurs(s, pat);
    }
  }

  lemma FoundAt(s: string, pat: string, i: nat)
    requires pat != "" && OccursAt(s, pat, i) && NowhereBefore(s, pat, i)
    ensures Find(s, pat) == Some(i)
  {
    FindIsFirst(s, pat, i);
  }

  lemma BracketOccurs(s: string, i: nat)
    ensures OccursAt(s, "]", i) <==> i < |s| && s[i] == ']'
  {
    if i < |s| {
      assert s[i..i + 1] == [s[i]];
    }
  }

  lemma BracketFound(inner: string)
    requires Find(inner, "]").Some?
    ensures var k := Find(inner, "]").value; k < |inner| && inner[k] == ']' && ']' !in inner[..k]
  {
    hide Find, OccursAt;
    FoundIs(inner, "]");
    var k := Find(inner, "]").value;
    BracketOccurs(inner, k);
    forall i | 0 <= i < k ensures inner[..k][i] != ']' {
      BracketOccurs(inner, i);
    }
  }

  lemma BracketAfter(inner: string, l: string)
    requires l + "]" <= inner && ']' !in l
    ensures Find(inner, "]") == Some(|l|) && inner[..|l|] == l
  {
    hide Find, OccursAt;
    assert inner[..|l|] == l && inner[|l|] == ']';
    BracketOccurs(inner, |l|);
    forall i | 0 <= i < |l| ensures !OccursAt(inner, "]", i) {
      BracketOccurs(inner, i);
      assert inner[i] == l[i];
    }
    FoundAt(inner, "]", |l|);
  }

  lemma CutIsRead(s: string, open: string, malformed: string, header: string, list: Option<string>)
    requires open != ""
    ensures CutList(s, open, malformed) == Ok((header, list)) <==> CutAs(s, open, header, list)
  {
    hide Find, OccursAt, NowhereBefore;
    NotFoundIs(s, open);
    if list.Some? {
      if CutList(s, open, malformed) == Ok((header, list)) {
        CutGivesList(s, open, malformed, header, list.value);
      }
      if CutAs(s, open, header, list) {
        ListIsCut(s, open, malformed, header, list.value);
      }
    }
  }

  lemma CutGivesList(s: string, open: string, malformed: string, header: string, l: string)
    requires open != "" && CutList(s, open, malformed) == Ok((header, Some(l)))
    ensures CutAs(s, open, header, Some(l))
  {
    hide Find, OccursAt, NowhereBefore;
    FoundIs(s, open);
    var start := Find(s, open).value;
    var inner := s[start + |open|..];
    BracketFound(inner);
    var end := Find(inner, "]").value;
    assert header == s[..start] && l == inner[..end];
    CutPrefix(s, open, start, end);
  }

  lemma ListIsCut(s: string, open: string, malformed: string, header: string, l: string)
    requires open != "" && CutAs(s, open, header, Some(l))
    ensures CutList(s, open, malformed) == Ok((header, Some(l)))
  {
    hide Find, OccursAt, NowhereBefore;
    CutOccurs(s, open, header, l);
    FoundAt(s, open, |header|);
    BracketAfter(s[|header| + |open|..], l);
  }

  lemma CutPrefix(s: string, open: string, start: nat, end: nat)
    requires start + |open| <= |s| && s[start..start + |open|] == open
    requires end < |s[start + |open|..]| && s[start + |open|..][end] == ']'
    ensures s[..start] + open + s[start + |open|..][..end] + "]" <= s
  {
    var inner := s[start + |open|..];
    assert s == s[..start] + open + inner;
    assert inner[..end] + "]" <= inner;
  }

  lemma CutOccurs(s: string, open: string, header: string, l: string)
    requires header + open + l + "]" <= s
    ensures |header| + |open| <= |s| && OccursAt(s, open, |header|) && s[..|header|] == header
    ensures l + "]" <= s[|header| + |open|..]
  {
  }

  ghost predicate ItemsAre<T>(says: (string, T) -> bool, skipped: string -> bool, list: Option<string>, items: seq<T>) {
    match list
    case None => items == []
    case Some(l) => ListIs(says, skipped, Split(l, "|"), items)
  }

  ghost predicate PromiseIs(s: string, pr: Promise) {
    exists header, list ::
      && CutAs(s, "accepted:[", header, list) && ItemsAre(EntryIs, EntrySkipped, list, pr.accepted)
      && NumberIs(Split(header, ",")[1..], "slot", pr.slot) && NumberIs(Split(header, ",")[1..], "ballot", pr.ballot)
  }

  ghost predicate ExecutedIs(s: string, e: Executed) {
    exists header, list ::
      && CutAs(s, "results:[", header, list) && ItemsAre(ExecuteResultIs, ExecuteResultSkipped, list, e.results)
      && NumberIs(Split(header, ",")[1..], "adu", e.adu)
  }

  lemma EntriesClean(l: string)
    requires Clean(l, {']'})
    ensures forall i :: 0 <= i < |Split(l, "|")| ==> Clean(Split(l, "|")[i], {'|', ']'})
  {
    hide Split, Clean;
    forall i | 0 <= i < |Split(l, "|")| ensures Clean(Split(l, "|")[i], {'|', ']'}) {
      SplitClean(l, '|', {']'}, i);
      assert {']'} + {'|'} == {'|', ']'};
    }
  }

  lemma EntriesAreRead(list: Option<string>, items: seq<PValue>)
    requires list.Some? ==> Clean(list.value, {']'})
    ensures ParseBody(ParseEntry, list) == Ok(items) <==> ItemsAre(EntryIs, EntrySkipped, list, items)
  {
    hide Split, Clean, ParseEntry, EntryIs, EntrySkipped;
    if list.Some? {
      var entries := Split(list.value, "|");
      EntriesClean(list.value);
      forall i | 0 <= i < |entries| ensures Reads(ParseEntry, EntryIs, EntrySkipped, entries[i]) {
        EntryIsRead(entries[i]);
      }
      ListIsRead(ParseEntry, EntryIs, EntrySkipped, entries, items);
    }
  }

  lemma ResultsAreRead(list: Option<string>, items: seq<ExecuteResult>)
    requires list.Some? ==> Clean(list.value, {']'})
    ensures ParseBody(ParseExecuteResult, list) == Ok(items) <==> ItemsAre(ExecuteResultIs, ExecuteResultSkipped, list, items)
  {
    hide Split, Clean, ParseExecuteResult, ExecuteResultIs, ExecuteResultSkipped;
    if list.Some? {
      var entries := Split(list.value, "|");
      EntriesClean(list.value);
      forall i | 0 <= i < |entries| ensures Reads(ParseExecuteResult, ExecuteResultIs, ExecuteResultSkipped, entries[i]) {
        ExecuteResultIsRead(entries[i]);
      }
      ListIsRead(ParseExecuteResult, ExecuteResultIs, ExecuteResultSkipped, entries, items);
    }
  }

  lemma PromiseIsRead(s: string, pr: Promise)
    requires Clean(s, {})
    ensures ParsePromise(s) == Ok(PromiseMsg(pr)) <==> PromiseIs(s, pr)
  {
    hide Split, Clean, ParseBody, ItemsAre, CutList, CutAs, Number, NumberIs;
    var (open, malformed) := ("accepted:[", "malformed promise accepted list");
    forall header, list ensures CutList(s, open, malformed) == Ok((header, list)) <==> CutAs(s, open, header, list) {
      CutIsRead(s, open, malformed, header, list);
    }
    if CutList(s, open, malformed).Ok? {
      var (header, list) := CutList(s, open, malformed).value;
      if list.Some? {
        CutImage(s, open, malformed);
      }
      EntriesAreRead(list, pr.accepted);
      NumbersAreRead(Split(header, ",")[1..]);
    }
  }

  lemma ExecutedIsRead(s: string, e: Executed)
    requires Clean(s, {})
    ensures ParseExecuted(s) == Ok(ExecutedMsg(e)) <==> ExecutedIs(s, e)
  {
    hide Split, Clean, ParseBody, ItemsAre, CutList, CutAs, Number, NumberIs;
    var (open, malformed) := ("results:[", "malformed executed results list");
    forall header, list ensures CutList(s, open, malformed) == Ok((header, list)) <==> CutAs(s, open, header, list) {
      CutIsRead(s, open, malformed, header, list);
    }
    if CutList(s, open, malformed).Ok? {
      var (header, list) := CutList(s, open, malformed).value;
      if list.Some? {
        CutImage(s, open, malformed);
      }
      ResultsAreRead(list, e.results);
      NumbersAreRead(Split(header, ",")[1..]);
    }
  }

  // ----- whole messages ----------------------------------------------------------------------

  /** The first part names the kind of payload. */
  function TagOf(p: Payload): string {
    match p
    case Ignore => "ignore"
    case ClientRequest(_) => "client-request"
    case ClientResponse(_, _, _, _) => "client-response"
    case PrepareMsg(_, _) => "prepare"
    case PromiseMsg(_) => "promise"
    case AcceptMsg(_, _, _) => "accept"
    case AcceptedMsg(_, _, _) => "accepted"
    case LearnMsg(_, _) => "learn"
    case Heartbeat => "heartbeat"
    case RetryLearns(_) => "retry-learns"
    case ExecutedMsg(_) => "executed"
    case Benchmark(_, _) => "benchmark"
    case Adu(_) => "adu"
  }

  ghost predicate PayloadIs(s: string, p: Payload) {
    var parts := Split(s, ",");
    && parts[0] == TagOf(p)
    && match p
       case PromiseMsg(pr) => PromiseIs(s, pr)
       case ExecutedMsg(e) => ExecutedIs(s, e)
       case _ => RecordIs(parts[1..], p)
  }

  function KindFor(p: Payload): Kind {
    match p
    case Ignore => KIgnore
    case ClientRequest(_) => KClientRequest
    case ClientResponse(_, _, _, _) => KClientResponse
    case PrepareMsg(_, _) => KPrepare
    case PromiseMsg(_) => KPromise
    case AcceptMsg(_, _, _) => KAccept
    case AcceptedMsg(_, _, _) => KAccepted
    case LearnMsg(_, _) => KLearn
    case Heartbeat => KHeartbeat
    case RetryLearns(_) => KRetryLearns
    case ExecutedMsg(_) => KExecuted
    case Benchmark(_, _) => KBenchmark
    case Adu(_) => KAdu
  }

  lemma KindIsTag(tag: string, p: Payload)
    ensures KindOf(tag) == Some(KindFor(p)) <==> tag == TagOf(p)
  {
    KindsOfTags();
  }

  lemma PayloadIsRead(s: string, p: Payload)
    requires Clean(s, {})
    ensures ParsePayload(s) == Ok(p) <==> PayloadIs(s, p)
  {
    hide Clean, AllClean, Split, KindOf, RecordIs, PromiseIs, ExecutedIs, ParseClientRequest, ParseClientResponse, ParsePrepare,
      ParsePromise, ParseAccept, ParseAccepted, ParseLearn, ParseRetryLearns, ParseExecuted, ParseBenchmark, ParseAdu;
    KindIsTag(Split(s, ",")[0], p);
    var fields := Split(s, ",")[1..];
    PartsClean(s, {}, COMMA);
    TailClean(Split(s, ","), COMMA);
    ProposalIsRead(fields);
    PlainIsRead(fields);
    ResponseIsRead(fields);
    SlotsOrAduIsRead(fields);
    if ParsePayload(s) == Ok(p) {
      PayloadsByKind(s, p);
    }
    if p.PromiseMsg? {
      PromiseIsRead(s, p.promise);
    } else if p.ExecutedMsg? {
      ExecutedIsRead(s, p.executed);
    } else if p.Ignore? || p.Heartbeat? {
      assert RecordIs(fields, p) by { NothingToSay(fields, p); }
    }
  }

  lemma NothingToSay(fields: seq<string>, p: Payload)
    requires p.Ignore? || p.Heartbeat?
    ensures RecordIs(fields, p)
  {
  }

  /** A payload of one kind is never read from a text of another. */
  lemma PayloadsByKind(s: string, p: Payload)
    requires ParsePayload(s) == Ok(p)
    ensures KindOf(Split(s, ",")[0]) == Some(KindFor(p))
  {
    hide Split, KindOf, LastField, Number, Flag, ParseValue, CutList, ParseBody, ParseSlots, ParseU64, ParseResult;
  }

  ghost predicate NodeIs(s: string, n: Node) {
    var parts := Split(s, ",");
    && NumberIs(parts, "node_id", n.nodeId) && FieldIs(parts, "address", n.address) && FieldIs(parts, "role", RoleText(n.role))
    && forall i, v :: 0 <= i < |parts| && parts[i] == Field("role", v) ==> exists r :: v == RoleText(r)
  }

  lemma RolesAreRead(parts: seq<string>)
    ensures RolesKnown(parts) <==>
      forall i, v :: 0 <= i < |parts| && parts[i] == Field("role", v) ==> exists r :: v == RoleText(r)
  {
    hide KeyValue, Field, ParseRole, RoleText, HasKey, Names;
    forall i | 0 <= i < |parts|
      ensures HasKey(parts[i], "role") ==> KeyValue(parts[i]).1.Some? && parts[i] == Field("role", KeyValue(parts[i]).1.value)
      ensures forall v :: parts[i] == Field("role", v) ==> HasKey(parts[i], "role") && KeyValue(parts[i]).1 == Some(v)
    {
      NamesIs(parts[i], "role");
      NamesFields(parts[i], "role");
    }
    forall v ensures ParseRole(v).Some? <==> exists r :: v == RoleText(r) {
      RoleIsRead(v);
      if ParseRole(v).Some? {
        assert v == RoleText(ParseRole(v).value);
      }
    }
  }

  lemma NodeIsRead(s: string, n: Node)
    ensures ParseNode(s) == Ok(n) <==> NodeIs(s, n)
  {
    hide Split, LastField, FieldIs, Number, NumberIs, RolesKnown, ParseRole, RoleText, Field;
    var parts := Split(s, ",");
    RolesAreRead(parts);
    NumberIsRead(parts, "node_id");
    FieldIsRead(parts, "address");
    FieldIsRead(parts, "role");
    if LastField(parts, "role").Some? {
      RoleIsRead(LastField(parts, "role").value);
    }
  }

  ghost predicate MessageIs(s: string, m: NetworkMessage) {
    exists sender, payload ::
      && Split(s, "||") == ["sender=" + sender, "payload=" + payload]
      && NodeIs(sender, m.sender) && PayloadIs(payload, m.payload)
  }

  /** Reading is exact, for every text whatever: a message is read from it if and only if
      the text says so. */
  lemma ReadingIsExact(s: string, m: NetworkMessage)
    ensures ParseMessage(s) == Ok(m) <==> MessageIs(s, m)
  {
    hide Split, ParseNode, ParsePayload, NodeIs, PayloadIs, Clean;
    var parts := Split(s, "||");
    if |parts| == 2 {
      SplitOnPipesIsClean(s, 0);
      SplitOnPipesIsClean(s, 1);
      if ParseMessage(s) == Ok(m) {
        CleanSlice(parts[1], {}, 8, |parts[1]|);
        var (sender, payload) := (StripPrefix(parts[0], "sender=").value, StripPrefix(parts[1], "payload=").value);
        assert parts == ["sender=" + sender, "payload=" + payload] && payload == parts[1][8..|parts[1]|];
        NodeIsRead(sender, m.sender);
        PayloadIsRead(payload, m.payload);
      }
      if MessageIs(s, m) {
        var sender, payload :| Split(s, "||") == ["sender=" + sender, "payload=" + payload]
          && NodeIs(sender, m.sender) && PayloadIs(payload, m.payload);
        CleanSlice(parts[1], {}, 8, |parts[1]|);
        assert parts[0][..7] == "sender=" && parts[0][7..] == sender;
        assert parts[1][..8] == "payload=" && parts[1][8..] == payload && parts[1][8..|parts[1]|] == payload;
        NodeIsRead(sender, m.sender);
        PayloadIsRead(payload, m.payload);
      }
    }
  }

  // ----- the texts printed -------------------------------------------------------------------

  /** The parts of a printed record, in the order they are printed; lists come after them. */
  function PartsOf(p: Payload): seq<string> {
    match p
    case Ignore => ["ignore"]
    case ClientRequest(v) => ["client-request"] + ValueParts(v)
    case ClientResponse(id, n, success, result) =>
      ["client-response", "client_id:" + id, "client_seq:" + Dec(n), "success:" + BoolText(success), "result:" + ResultText(result)]
    case PrepareMsg(slot, ballot) => ["prepare", "slot:" + Dec(slot), "ballot:" + Dec(ballot)]
    case PromiseMsg(pr) => ["promise", "slot:" + Dec(pr.slot), "ballot:" + Dec(pr.ballot)]
    case AcceptMsg(slot, ballot, v) => ["accept", "slot:" + Dec(slot), "ballot:" + Dec(ballot)] + ValueParts(v)
    case AcceptedMsg(slot, ballot, success) =>
      ["accepted", "slot:" + Dec(slot), "ballot:" + Dec(ballot), "success:" + BoolText(success)]
    case LearnMsg(slot, v) => ["learn", "slot:" + Dec(slot)] + ValueParts(v)
    case Heartbeat => ["heartbeat"]
    case RetryLearns(slots) => ["retry-learns", "slots:" + Join(Map(SlotText, slots), "|")]
    case ExecutedMsg(e) => ["executed", "adu:" + Dec(e.adu)]
    case Benchmark(stamp, text) => ["benchmark", "send_timestamp:" + Dec(stamp), "payload:" + text]
    case Adu(slot) => ["adu", Dec(slot)]
  }

  function ValueParts(v: Value): seq<string> {
    ["client_id:" + v.clientId, "client_seq:" + Dec(v.clientSeq), "op:" + CommandText(v.command)]
  }

  lemma KeysWithColons()
    ensures "client_id" + ":" == "client_id:" && "client_seq" + ":" == "client_seq:" && "op" + ":" == "op:"
    ensures "slot" + ":" == "slot:" && "slots" + ":" == "slots:" && "ballot" + ":" == "ballot:" && "adu" + ":" == "adu:"
    ensures "success" + ":" == "success:" && "result" + ":" == "result:"
    ensures "send_timestamp" + ":" == "send_timestamp:" && "payload" + ":" == "payload:"
    ensures "node_id" + ":" == "node_id:" && "address" + ":" == "address:" && "role" + ":" == "role:"
  {
  }

  /** What goes out for every payload and every node, part by part. */
  lemma PrintingIsExact(m: NetworkMessage)
    ensures var (n, p) := (m.sender, m.payload);
      && MessageText(m) == "sender=" + NodeText(n) + "||" + ("payload=" + PayloadText(p))
      && NodeText(n) == Join(["node_id:" + Dec(n.nodeId), "address:" + n.address, "role:" + RoleText(n.role)], ",")
      && match p
         case PromiseMsg(pr) =>
           PayloadText(p) == Join(PartsOf(p), ",") +
             if pr.accepted == [] then "" else ",accepted:[" + (Join(Map(EntryText, pr.accepted), "|") + "]")
         case ExecutedMsg(e) =>
           PayloadText(p) == Join(PartsOf(p), ",") + (",results:[" + (Join(Map(ExecuteResultText, e.results), "|") + "]"))
         case _ => PayloadText(p) == Join(PartsOf(p), ",")
  {
    hide Join, NodeText, PayloadText, PartsOf, Map;
    NodePrinted(m.sender);
    ListHeadersPrinted(m.payload);
    if !m.payload.PromiseMsg? && !m.payload.ExecutedMsg? {
      PayloadPrinted(m.payload);
    }
  }

  lemma NodePrinted(n: Node)
    ensures NodeText(n) == Join(["node_id:" + Dec(n.nodeId), "address:" + n.address, "role:" + RoleText(n.role)], ",")
  {
    hide Dec, Join;
    KeysWithColons();
    assert Fields(NODE_KEYS, [Dec(n.nodeId), n.address, RoleText(n.role)]) ==
      ["node_id:" + Dec(n.nodeId), "address:" + n.address, "role:" + RoleText(n.role)];
  }

  /** The record of a payload, as its tag and its fields. */
  lemma TaggedPrinted(tag: string, keys: seq<string>, values: seq<string>, parts: seq<string>)
    requires |keys| == |values| && |parts| == |keys|
    requires forall i :: 0 <= i < |keys| ==> parts[i] == Field(keys[i], values[i])
    ensures Tagged(tag, keys, values) == Join([tag] + parts, ",")
  {
    hide Join, Field;
    assert Fields(keys, values) == parts;
  }

  lemma ProposalPrinted(p: Payload)
    requires p.ClientRequest? || p.AcceptMsg? || p.LearnMsg?
    ensures PayloadText(p) == Join(PartsOf(p), ",")
  {
    hide Dec, Join, CommandText, Tagged;
    KeysWithColons();
    match p
    case ClientRequest(v) =>
      TaggedPrinted("client-request", VALUE_KEYS, [v.clientId, Dec(v.clientSeq), CommandText(v.command)], ValueParts(v));
    case AcceptMsg(slot, ballot, v) =>
      var parts := ["slot:" + Dec(slot), "ballot:" + Dec(ballot)] + ValueParts(v);
      TaggedPrinted("accept", PROPOSAL_KEYS, [Dec(slot), Dec(ballot), v.clientId, Dec(v.clientSeq), CommandText(v.command)], parts);
      assert ["accept"] + parts == PartsOf(p);
    case LearnMsg(slot, v) =>
      var parts := ["slot:" + Dec(slot)] + ValueParts(v);
      TaggedPrinted("learn", LEARN_KEYS, [Dec(slot), v.clientId, Dec(v.clientSeq), CommandText(v.command)], parts);
      assert ["learn"] + parts == PartsOf(p);
  }

  lemma HeaderPrinted(slot: Slot, ballot: Ballot, tag: string)
    ensures Tagged(tag, PREPARE_KEYS, [Dec(slot), Dec(ballot)]) ==
      Join([tag, "slot:" + Dec(slot), "ballot:" + Dec(ballot)], ",")
  {
    hide Dec, Join, Tagged;
    KeysWithColons();
    var parts := ["slot:" + Dec(slot), "ballot:" + Dec(ballot)];
    TaggedPrinted(tag, PREPARE_KEYS, [Dec(slot), Dec(ballot)], parts);
    assert [tag] + parts == [tag, "slot:" + Dec(slot), "ballot:" + Dec(ballot)];
  }

  lemma PlainPrinted(p: Payload)
    requires p.ClientResponse? || p.AcceptedMsg? || p.Benchmark?
    ensures PayloadText(p) == Join(PartsOf(p), ",")
  {
    hide Dec, Join, Tagged, ResultText;
    KeysWithColons();
    match p
    case ClientResponse(id, n, success, result) =>
      var parts := PartsOf(p)[1..];
      TaggedPrinted("client-response", RESPONSE_KEYS, [id, Dec(n), BoolText(success), ResultText(result)], parts);
      assert ["client-response"] + parts == PartsOf(p);
    case AcceptedMsg(slot, ballot, success) =>
      var parts := PartsOf(p)[1..];
      TaggedPrinted("accepted", ACCEPTED_KEYS, [Dec(slot), Dec(ballot), BoolText(success)], parts);
      assert ["accepted"] + parts == PartsOf(p);
    case Benchmark(stamp, text) =>
      var parts := PartsOf(p)[1..];
      TaggedPrinted("benchmark", BENCHMARK_KEYS, [Dec(stamp), text], parts);
      assert ["benchmark"] + parts == PartsOf(p);
  }

  lemma ListHeadersPrinted(p: Payload)
    ensures match p
      case PromiseMsg(pr) =>
        PayloadText(p) == Join(PartsOf(p), ",") +
          if pr.accepted == [] then "" else ",accepted:[" + (Join(Map(EntryText, pr.accepted), "|") + "]")
      case ExecutedMsg(e) =>
        PayloadText(p) == Join(PartsOf(p), ",") + (",results:[" + (Join(Map(ExecuteResultText, e.results), "|") + "]"))
      case _ => true
  {
    hide Dec, Join, Tagged, Map;
    match p
    case PromiseMsg(pr) =>
      HeaderPrinted(pr.slot, pr.ballot, "promise");
      var (header, list) := (Join(PartsOf(p), ","), Join(Map(EntryText, pr.accepted), "|") + "]");
      ListAppended(header, "accepted:[", list);
      assert "," + "accepted:[" == ",accepted:[";
    case ExecutedMsg(e) =>
      KeysWithColons();
      var parts := ["adu:" + Dec(e.adu)];
      TaggedPrinted("executed", ADU_KEYS, [Dec(e.adu)], parts);
      assert ["executed"] + parts == PartsOf(p);
      var (header, list) := (Join(PartsOf(p), ","), Join(Map(ExecuteResultText, e.results), "|") + "]");
      ListAppended(header, "results:[", list);
      assert "," + "results:[" == ",results:[";
    case _ =>
  }

  lemma ListAppended(header: string, open: string, list: string)
    ensures header + "," + open + list == header + (("," + open) + list)
    ensures header + "" == header
  {
  }

  lemma PayloadPrinted(p: Payload)
    requires !p.PromiseMsg? && !p.ExecutedMsg?
    ensures PayloadText(p) == Join(PartsOf(p), ",")
  {
    hide Dec, Tagged, ResultText, CommandText, Map;
    match p
    case PrepareMsg(slot, ballot) => HeaderPrinted(slot, ballot, "prepare");
    case ClientRequest(_) => ProposalPrinted(p);
    case AcceptMsg(_, _, _) => ProposalPrinted(p);
    case LearnMsg(_, _) => ProposalPrinted(p);
    case ClientResponse(_, _, _, _) => PlainPrinted(p);
    case AcceptedMsg(_, _, _) => PlainPrinted(p);
    case Benchmark(_, _) => PlainPrinted(p);
    case RetryLearns(_) => KeysWithColons();
    case _ =>
  }

  /** A promise entry and an executed result, field by field. */
  lemma EntriesPrinted(pv: PValue, r: ExecuteResult)
    ensures EntryText(pv) == Join(["slot:" + Dec(pv.slot), "ballot:" + Dec(pv.ballot)] +
      (match pv.value case Some(v) => ValueParts(v) case None => ["client_id:unknown", "client_seq:" + Dec(0), "op:none"]), ",")
    ensures ExecuteResultText(r) == Join(["slot:" + Dec(r.slot)] + ValueParts(r.value) +
      ["success:" + BoolText(r.success), "result:" + ResultText(r.cmdResult)], ",")
  {
    hide Dec, Join, CommandText, ResultText;
    KeysWithColons();
    assert "client_id:" + "unknown" == "client_id:unknown" && "op:" + "none" == "op:none";
    match pv.value {
      case Some(v) =>
        assert Fields(PROPOSAL_KEYS, [Dec(pv.slot), Dec(pv.ballot), v.clientId, Dec(v.clientSeq), CommandText(v.command)]) ==
          ["slot:" + Dec(pv.slot), "ballot:" + Dec(pv.ballot)] + ValueParts(v);
      case None =>
        assert Fields(PROPOSAL_KEYS, [Dec(pv.slot), Dec(pv.ballot), "unknown", Dec(0), "none"]) ==
          ["slot:" + Dec(pv.slot), "ballot:" + Dec(pv.ballot)] + ["client_id:unknown", "client_seq:" + Dec(0), "op:none"];
    }
    assert Fields(RESULT_KEYS, [Dec(r.slot), r.value.clientId, Dec(r.value.clientSeq), CommandText(r.value.command),
                                BoolText(r.success), ResultText(r.cmdResult)]) ==
      ["slot:" + Dec(r.slot)] + ValueParts(r.value) + ["success:" + BoolText(r.success), "result:" + ResultText(r.cmdResult)];
  }
}
