/** The string operations the wire format is built from: searching, splitting and
    joining at delimiters, `key:value` fields, and decimal numbers. */
module Text {
  import opened Prelude

  /** The first place where `pat` occurs. */
  function Find(s: string, pat: string): (r: Option<nat>)
    requires pat != ""
    ensures r.Some? ==> r.value + |pat| <= |s| && s[r.value..r.value + |pat|] == pat
  {
    if |s| < |pat| then None
    else if s[..|pat|] == pat then Some(0)
    else
      match Find(s[1..], pat)
      case None => None
      case Some(i) =>
        assert s[1..][i..i + |pat|] == s[i + 1..i + 1 + |pat|];
        Some(i + 1)
  }

  function Split(s: string, pat: string): (parts: seq<string>)
    requires pat != ""
    ensures parts != []
    decreases |s|
  {
    match Find(s, pat)
    case None => [s]
    case Some(i) => [s[..i]] + Split(s[i + |pat|..], pat)
  }

  function Join(parts: seq<string>, sep: string): string {
    if parts == [] then ""
    else if |parts| == 1 then parts[0]
    else parts[0] + (sep + Join(parts[1..], sep))
  }

  function StripPrefix(s: string, p: string): (r: Option<string>)
    ensures r.Some? ==> s == p + r.value
  {
    if |p| <= |s| && s[..|p|] == p then Some(s[|p|..]) else None
  }

  function StripSuffix(s: string, p: string): (r: Option<string>)
    ensures r.Some? ==> s == r.value + p
  {
    if |p| <= |s| && s[|s| - |p|..] == p then Some(s[..|s| - |p|]) else None
  }

  // ----- searching ------------------------------------------------------------------

  /** `s[i..]` begins with `pat`. */
  predicate OccursAt(s: string, pat: string, i: nat) { i + |pat| <= |s| && s[i..i + |pat|] == pat }

  lemma {:induction false} FindIsFirst(s: string, pat: string, i: nat)
    requires pat != "" && OccursAt(s, pat, i)
    requires forall j :: 0 <= j < i ==> !OccursAt(s, pat, j)
    ensures Find(s, pat) == Some(i)
    decreases i
  {
    if i > 0 {
      assert !OccursAt(s, pat, 0) && s[0..|pat|] == s[..|pat|];
      forall j | 0 <= j < i - 1 ensures !OccursAt(s[1..], pat, j) {
        assert !OccursAt(s, pat, j + 1);
        if j + |pat| <= |s| - 1 {
          assert s[1..][j..j + |pat|] == s[j + 1..j + 1 + |pat|];
        }
      }
      assert s[1..][i - 1..i - 1 + |pat|] == s[i..i + |pat|];
      FindIsFirst(s[1..], pat, i - 1);
    } else {
      assert s[0..|pat|] == s[..|pat|];
    }
  }

  lemma {:induction false} FindNone(s: string, pat: string)
    requires pat != "" && forall j :: 0 <= j < |s| ==> !OccursAt(s, pat, j)
    ensures Find(s, pat) == None
  {
    if |s| >= |pat| {
      assert !OccursAt(s, pat, 0) && s[0..|pat|] == s[..|pat|];
      forall j | 0 <= j < |s[1..]| ensures !OccursAt(s[1..], pat, j) {
        assert !OccursAt(s, pat, j + 1);
        if j + |pat| <= |s| - 1 {
          assert s[1..][j..j + |pat|] == s[j + 1..j + 1 + |pat|];
        }
      }
      FindNone(s[1..], pat);
    }
  }

  lemma {:induction false} NothingBeforeFind(s: string, pat: string, j: nat)
    requires pat != ""
    requires match Find(s, pat) case None => true case Some(i) => j < i
    ensures !OccursAt(s, pat, j)
  {
    if |s| >= |pat| {
      assert s[0..|pat|] == s[..|pat|];
      if j > 0 && s[..|pat|] != pat {
        NothingBeforeFind(s[1..], pat, j - 1);
        if j + |pat| <= |s| {
          assert s[1..][j - 1..j - 1 + |pat|] == s[j..j + |pat|];
        }
      }
    }
  }

  lemma OccursHas(s: string, pat: string, i: nat, k: nat)
    requires OccursAt(s, pat, i) && k < |pat|
    ensures i + k < |s| && s[i + k] == pat[k]
  {
  }

  /** A delimiter whose first character is not in the text before it. */
  lemma FindByFirstChar(a: string, pat: string, b: string)
    requires pat != "" && pat[0] !in a
    ensures Find(a + pat + b, pat) == Some(|a|)
  {
    var s := a + pat + b;
    assert s[|a|..|a| + |pat|] == pat;
    forall j | 0 <= j < |a| ensures !OccursAt(s, pat, j) {
      if OccursAt(s, pat, j) {
        OccursHas(s, pat, j, 0);
      }
    }
    FindIsFirst(s, pat, |a|);
  }

  /** A delimiter whose last character occurs nowhere before its own place. */
  lemma FindByLastChar(a: string, pat: string, b: string)
    requires pat != "" && pat[|pat| - 1] !in a && pat[|pat| - 1] !in pat[..|pat| - 1]
    ensures Find(a + pat + b, pat) == Some(|a|)
  {
    var s := a + pat + b;
    var k := |pat| - 1;
    assert s[|a|..|a| + |pat|] == pat;
    forall j | 0 <= j < |a| ensures !OccursAt(s, pat, j) {
      if OccursAt(s, pat, j) {
        OccursHas(s, pat, j, k);
      }
    }
    FindIsFirst(s, pat, |a|);
  }

  lemma NoFirstCharNoFind(s: string, pat: string)
    requires pat != "" && pat[0] !in s
    ensures Find(s, pat) == None
  {
  }

  // ----- splitting and joining --------------------------------------------------------

  lemma SplitAt(a: string, pat: string, b: string)
    requires pat != "" && Find(a + pat + b, pat) == Some(|a|)
    ensures Split(a + pat + b, pat) == [a] + Split(b, pat)
  {
    var s := a + pat + b;
    assert s[..|a|] == a && s[|a| + |pat|..] == b;
  }

  /** Splitting undoes joining when no part contains the delimiter. */
  lemma {:induction false} SplitJoin(parts: seq<string>, c: char)
    requires parts != [] && forall i :: 0 <= i < |parts| ==> c !in parts[i]
    ensures Split(Join(parts, [c]), [c]) == parts
  {
    if |parts| == 1 {
      NoFirstCharNoFind(parts[0], [c]);
    } else {
      var rest := parts[1..];
      SplitJoin(rest, c);
      assert Join(parts, [c]) == parts[0] + [c] + Join(rest, [c]);
      FindByFirstChar(parts[0], [c], Join(rest, [c]));
      SplitAt(parts[0], [c], Join(rest, [c]));
      assert parts == [parts[0]] + rest;
    }
  }

  // ----- which texts survive ------------------------------------------------------------

  /** No two pipes in a row, and none of the bad characters. */
  ghost predicate Clean(s: string, bad: set<char>) {
    && (forall i :: 0 <= i < |s| - 1 ==> !(s[i] == '|' && s[i + 1] == '|'))
    && (forall i :: 0 <= i < |s| ==> s[i] !in bad)
  }

  lemma CleanSlice(s: string, bad: set<char>, i: nat, j: nat)
    requires Clean(s, bad) && i <= j <= |s|
    ensures Clean(s[i..j], bad)
  {
  }

  lemma CleanConcat(a: string, b: string, bad: set<char>)
    requires Clean(a, bad) && Clean(b, bad)
    requires a == "" || b == "" || a[|a| - 1] != '|' || b[0] != '|'
    ensures Clean(a + b, bad)
  {
  }

  /** Pieces of a clean text are clean, and free of the delimiter as well. */
  lemma {:induction false} SplitClean(s: string, c: char, bad: set<char>, i: nat)
    requires Clean(s, bad) && i < |Split(s, [c])|
    ensures Clean(Split(s, [c])[i], bad + {c})
    decreases |s|
  {
    hide Find, Clean;
    match Find(s, [c])
    case None =>
      CleanUpTo(s, c, bad, |s|);
      assert s[..|s|] == s;
    case Some(k) =>
      if i == 0 {
        CleanUpTo(s, c, bad, k);
      } else {
        CleanSlice(s, bad, k + 1, |s|);
        assert s[k + 1..|s|] == s[k + 1..];
        SplitClean(s[k + 1..], c, bad, i - 1);
      }
  }

  lemma CleanUpTo(s: string, c: char, bad: set<char>, k: nat)
    requires Clean(s, bad) && k == match Find(s, [c]) case None => |s| case Some(i) => i
    ensures Clean(s[..k], bad + {c})
  {
    CharNotBefore(s, c, k);
    CleanSlice(s, bad, 0, k);
    assert s[0..k] == s[..k];
  }

  lemma CharOccurs(s: string, c: char, j: nat)
    requires j < |s| && !OccursAt(s, [c], j)
    ensures s[j] != c
  {
    assert s[j..j + 1] == [s[j]];
  }

  lemma CharNotBefore(s: string, c: char, k: nat)
    requires k == match Find(s, [c]) case None => |s| case Some(i) => i
    ensures forall j :: 0 <= j < k ==> s[j] != c
  {
    hide Find, OccursAt;
    forall j | 0 <= j < k ensures s[j] != c {
      NothingBeforeFind(s, [c], j);
      CharOccurs(s, c, j);
    }
  }

  lemma {:induction false} SplitOnPipesIsClean(s: string, i: nat)
    requires i < |Split(s, "||")|
    ensures Clean(Split(s, "||")[i], {})
    decreases |s|
  {
    hide Clean, Find;
    if i == 0 {
      NoPipesBefore(s, |Split(s, "||")[0]|);
      assert Split(s, "||")[0] == s[..|Split(s, "||")[0]|];
    } else {
      var k := Find(s, "||").value;
      SplitOnPipesIsClean(s[k + 2..], i - 1);
    }
  }

  lemma PipesOccur(s: string, j: nat)
    requires j + 1 < |s| && !OccursAt(s, "||", j)
    ensures !(s[j] == '|' && s[j + 1] == '|')
  {
    assert s[j..j + 2] == [s[j], s[j + 1]];
  }

  lemma CleanIfNoPipes(s: string, k: nat)
    requires k <= |s| && forall j :: 0 <= j < k - 1 ==> !(s[j] == '|' && s[j + 1] == '|')
    ensures Clean(s[..k], {})
  {
    forall j | 0 <= j < |s[..k]| - 1 ensures !(s[..k][j] == '|' && s[..k][j + 1] == '|') {
      assert s[..k][j] == s[j] && s[..k][j + 1] == s[j + 1];
    }
  }

  lemma NoPipesBefore(s: string, k: nat)
    requires k == match Find(s, "||") case None => |s| case Some(i) => i
    ensures Clean(s[..k], {})
  {
    hide Find, Clean, OccursAt;
    forall j | 0 <= j < k - 1 ensures !(s[j] == '|' && s[j + 1] == '|') {
      NothingBeforeFind(s, "||", j);
      PipesOccur(s, j);
    }
    CleanIfNoPipes(s, k);
  }

  /** Two texts without a double pipe come apart again at the one between them. */
  lemma SplitOnPipes(a: string, b: string)
    requires Clean(a, {}) && Clean(b, {}) && (a == "" || a[|a| - 1] != '|')
    ensures Split(a + "||" + b, "||") == [a, b]
  {
    hide Clean, Find;
    FindBetween(a, b);
    SplitAt(a, "||", b);
    NoPipes(b);
  }

  lemma NoPipes(s: string)
    requires Clean(s, {})
    ensures Find(s, "||") == None
  {
    forall j | 0 <= j < |s| ensures !OccursAt(s, "||", j) {
      if OccursAt(s, "||", j) {
        OccursHas(s, "||", j, 0);
        OccursHas(s, "||", j, 1);
      }
    }
    FindNone(s, "||");
  }

  lemma FindBetween(a: string, b: string)
    requires Clean(a, {}) && (a == "" || a[|a| - 1] != '|')
    ensures Find(a + "||" + b, "||") == Some(|a|)
  {
    hide Find;
    var s := a + "||" + b;
    assert s[|a|..|a| + 2] == "||";
    forall j | 0 <= j < |a| ensures !OccursAt(s, "||", j) {
      if OccursAt(s, "||", j) {
        OccursHas(s, "||", j, 0);
        OccursHas(s, "||", j, 1);
      }
    }
    FindIsFirst(s, "||", |a|);
  }

  lemma {:induction false} JoinClean(parts: seq<string>, c: char, bad: set<char>)
    requires c != '|' && c !in bad && forall i :: 0 <= i < |parts| ==> Clean(parts[i], bad)
    ensures Clean(Join(parts, [c]), bad)
  {
    if |parts| > 1 {
      JoinClean(parts[1..], c, bad);
      CleanConcat([c], Join(parts[1..], [c]), bad);
      CleanConcat(parts[0], [c] + Join(parts[1..], [c]), bad);
    }
  }

  /** Pipes may separate texts that have none and are not empty. */
  lemma {:induction false} JoinPipesClean(parts: seq<string>, bad: set<char>)
    requires '|' !in bad && forall i :: 0 <= i < |parts| ==> parts[i] != "" && Clean(parts[i], bad + {'|'})
    ensures Clean(Join(parts, "|"), bad)
    ensures parts != [] ==> Join(parts, "|") != "" && Join(parts, "|")[0] != '|'
  {
    if parts != [] {
      assert parts[0][0] != '|' && parts[0][|parts[0]| - 1] != '|';
      assert Clean(parts[0], bad);
    }
    if |parts| > 1 {
      JoinPipesClean(parts[1..], bad);
      CleanConcat("|", Join(parts[1..], "|"), bad);
      CleanConcat(parts[0], "|" + Join(parts[1..], "|"), bad);
    }
  }

  // ----- fields -------------------------------------------------------------------------

  function Field(key: string, value: string): string { key + ":" + value }

  /** `splitn(2, ':')`: the key, and the value if there is a colon. */
  function KeyValue(part: string): (string, Option<string>) {
    match Find(part, ":")
    case None => (part, None)
    case Some(i) => (part[..i], Some(part[i + 1..]))
  }

  predicate HasKey(part: string, key: string) { KeyValue(part).0 == key && KeyValue(part).1.Some? }

  /** A later field overwrites an earlier one of the same key. */
  function LastField(parts: seq<string>, key: string): Option<string> {
    if parts == [] then None
    else
      var last := parts[|parts| - 1];
      if HasKey(last, key) then KeyValue(last).1 else LastField(parts[..|parts| - 1], key)
  }

  lemma KeyValueOfField(key: string, value: string)
    requires ':' !in key
    ensures KeyValue(Field(key, value)) == (key, Some(value))
  {
    FindByFirstChar(key, ":", value);
    assert Field(key, value) == key + ":" + value;
    assert Field(key, value)[..|key|] == key && Field(key, value)[|key| + 1..] == value;
  }

  function Fields(keys: seq<string>, values: seq<string>): (r: seq<string>)
    requires |keys| == |values|
    ensures |r| == |keys|
  {
    seq(|keys|, i requires 0 <= i < |keys| => Field(keys[i], values[i]))
  }

  ghost predicate Word(s: string) { s != "" && forall i :: 0 <= i < |s| ==> s[i] !in {':', ',', '|', '[', ']'} }

  ghost predicate Keys(keys: seq<string>) {
    && (forall i :: 0 <= i < |keys| ==> Word(keys[i]))
    && (forall i, j :: 0 <= i < j < |keys| ==> keys[i] != keys[j])
  }

  lemma {:induction false} LastFieldOf(keys: seq<string>, values: seq<string>, i: nat)
    requires |keys| == |values| && Keys(keys) && i < |keys|
    ensures LastField(Fields(keys, values), keys[i]) == Some(values[i])
  {
    var n := |keys| - 1;
    KeyValueOfField(keys[n], values[n]);
    if i < n {
      assert Fields(keys, values)[..n] == Fields(keys[..n], values[..n]);
      assert keys[i] != keys[n];
      LastFieldOf(keys[..n], values[..n], i);
      assert keys[..n][i] == keys[i] && values[..n][i] == values[i];
    }
  }

  lemma {:induction false} LastFieldClean(parts: seq<string>, key: string, bad: set<char>)
    requires forall i :: 0 <= i < |parts| ==> Clean(parts[i], bad)
    ensures LastField(parts, key).Some? ==> Clean(LastField(parts, key).value, bad)
  {
    if parts != [] {
      var last := parts[|parts| - 1];
      if HasKey(last, key) {
        var i := Find(last, ":").value;
        CleanSlice(last, bad, i + 1, |last|);
      } else {
        LastFieldClean(parts[..|parts| - 1], key, bad);
      }
    }
  }

  // ----- numbers -----------------------------------------------------------------------

  predicate IsDigit(c: char) { '0' <= c <= '9' }

  function Digit(d: nat): char
    requires d < 10
  {
    '0' + d as char
  }

  function Dec(n: nat): (s: string)
    ensures s != "" && AllDigits(s)
  {
    if n < 10 then [Digit(n)] else Dec(n / 10) + [Digit(n % 10)]
  }

  function DigitsValue(s: string): nat
    requires AllDigits(s)
  {
    if s == "" then 0
    else
      var last := s[|s| - 1];
      assert IsDigit(last);
      10 * DigitsValue(s[..|s| - 1]) + (last as int - '0' as int)
  }

  predicate AllDigits(s: string) { forall i :: 0 <= i < |s| ==> IsDigit(s[i]) }

  function AfterPlus(s: string): string { if s != "" && s[0] == '+' then s[1..] else s }

  /** Rust's parser for unsigned numbers: one optional plus sign, digits, no overflow. */
  function ParseU64(s: string): Option<u64> {
    var digits := AfterPlus(s);
    if digits == "" || !AllDigits(digits) then None
    else
      var n := DigitsValue(digits);
      if n < TWO_TO_THE_64 then Some(n) else None
  }

  lemma {:induction false} DecValue(n: nat)
    ensures DigitsValue(Dec(n)) == n
  {
    if n >= 10 {
      DecValue(n / 10);
      assert Dec(n)[..|Dec(n)| - 1] == Dec(n / 10);
    } else {
      assert Dec(n)[..0] == "";
    }
  }

  function PowerOfTen(k: nat): nat { if k == 0 then 1 else 10 * PowerOfTen(k - 1) }

  /** Digits count by their place; leading zeros change nothing. */
  lemma {:induction false} DigitsArePositional(c: char, s: string)
    requires IsDigit(c) && AllDigits(s)
    ensures AllDigits([c] + s) && DigitsValue([c] + s) == (c as int - '0' as int) * PowerOfTen(|s|) + DigitsValue(s)
  {
    var all := [c] + s;
    if s == "" {
      assert all[..0] == "";
    } else {
      var (init, last) := (s[..|s| - 1], s[|s| - 1]);
      DigitsArePositional(c, init);
      assert all[..|all| - 1] == [c] + init && all[|all| - 1] == last && IsDigit(last);
      var (d, p) := (c as int - '0' as int, PowerOfTen(|init|));
      assert 10 * (d * p) == d * (10 * p);
    }
  }

  lemma DecParses(n: u64)
    ensures ParseU64(Dec(n)) == Some(n)
  {
    DecValue(n);
    assert IsDigit(Dec(n)[0]);
  }

  lemma DecClean(n: nat, bad: set<char>)
    requires forall c :: c in bad ==> !IsDigit(c)
    ensures Clean(Dec(n), bad) && '|' !in Dec(n) && '[' !in Dec(n)
  {
  }

  function BoolText(b: bool): string { if b then "true" else "false" }

  function ParseBool(s: string): Option<bool> {
    if s == "true" then Some(true) else if s == "false" then Some(false) else None
  }
}
