/** Vocabulary shared by every part of the model: machine words, optional and
    failing results, and the few facts about sequences and finite sets that the
    proofs need. */
module Prelude {

  datatype Option<+T> = None | Some(value: T)

  datatype Result<+T> = Ok(value: T) | Err(error: string)

  const TWO_TO_THE_32: int := 0x1_0000_0000
  const TWO_TO_THE_64: int := 0x1_0000_0000_0000_0000

  type u64 = x: int | 0 <= x < TWO_TO_THE_64
  type byte = x: int | 0 <= x < 256

  function Min(a: int, b: int): int { if a <= b then a else b }

  function Max(a: int, b: int): int { if a <= b then b else a }

  function SaturatingSub(a: u64, b: u64): u64 { if a <= b then 0 else a - b }

  function SaturatingMul(a: u64, b: u64): u64 {
    if 0 <= a * b < TWO_TO_THE_64 then a * b else TWO_TO_THE_64 - 1
  }

  /** The last `n` elements, or all of them. */
  function LastN<T>(s: seq<T>, n: nat): (r: seq<T>)
    ensures |r| == Min(n, |s|)
  {
    if |s| <= n then s else s[|s| - n..]
  }

  lemma LastNSnoc<T>(s: seq<T>, x: T, n: nat)
    ensures LastN(LastN(s, n) + [x], n) == LastN(s + [x], n)
  {
  }

  lemma LastNPlusOne<T>(s: seq<T>, x: T, n: nat)
    ensures LastN(s + [x], n + 1) == LastN(s, n) + [x]
  {
  }

  lemma LastNTwice<T>(s: seq<T>, m: nat, n: nat)
    ensures LastN(LastN(s, m), n) == LastN(s, Min(n, m))
  {
  }

  lemma ConcatAssociative<T>(a: seq<T>, b: seq<T>, c: seq<T>)
    ensures a + (b + c) == (a + b) + c
  {
  }

  function Map<X, Y>(f: X -> Y, s: seq<X>): (r: seq<Y>)
    ensures |r| == |s| && forall i :: 0 <= i < |s| ==> r[i] == f(s[i])
  {
    seq(|s|, i requires 0 <= i < |s| => f(s[i]))
  }

  function Flatten<T>(ss: seq<seq<T>>): seq<T> {
    if ss == [] then [] else ss[0] + Flatten(ss[1..])
  }

  lemma {:induction false} FlattenConcat<T>(a: seq<seq<T>>, b: seq<seq<T>>)
    ensures Flatten(a + b) == Flatten(a) + Flatten(b)
  {
    if a == [] {
      assert a + b == b;
    } else {
      assert (a + b)[0] == a[0] && (a + b)[1..] == a[1..] + b;
      FlattenConcat(a[1..], b);
    }
  }

  lemma FlattenSnoc<T>(a: seq<seq<T>>, x: seq<T>)
    ensures Flatten(a + [x]) == Flatten(a) + x
  {
    FlattenConcat(a, [x]);
    assert [x][1..] == [];
    assert Flatten([x]) == x + Flatten([x][1..]);
  }

  /** Finite sets of naturals in increasing order, as a BTreeMap or a sorted
      directory listing walks its keys. */
  ghost predicate StrictlyIncreasing(s: seq<int>) {
    forall i, j :: 0 <= i < j < |s| ==> s[i] < s[j]
  }

  lemma {:induction false} MinExists(s: set<nat>) returns (m: nat)
    requires s != {}
    ensures m in s && forall x :: x in s ==> m <= x
  {
    var x :| x in s;
    if s == {x} {
      m := x;
    } else {
      var rest := s - {x};
      assert s == rest + {x};
      m := MinExists(rest);
      if x < m { m := x; }
    }
  }

  function MinOf(s: set<nat>): (m: nat)
    requires s != {}
    ensures m in s && forall x :: x in s ==> m <= x
  {
    assert exists m :: m in s && forall x :: x in s ==> m <= x by { var m := MinExists(s); }
    var m :| m in s && forall x :: x in s ==> m <= x;
    m
  }

  function Sorted(s: set<nat>): (r: seq<nat>)
    ensures StrictlyIncreasing(r)
    ensures forall x :: x in r <==> x in s
    ensures |r| == |s|
    decreases |s|
  {
    if s == {} then [] else
      var m := MinOf(s);
      var rest := Sorted(s - {m});
      assert forall i :: 0 <= i < |rest| ==> rest[i] in rest;
      [m] + rest
  }

  function Above(keys: set<nat>, s: nat): set<nat> { set t | t in keys && s < t }

  lemma {:induction false} RankInOrder(keys: set<nat>, r: seq<nat>, j: nat)
    requires StrictlyIncreasing(r) && forall x :: x in keys <==> x in r
    requires j < |r|
    ensures |Above(keys, r[j])| == |r| - 1 - j
    decreases |r| - j
  {
    if j == |r| - 1 {
      forall t | t in keys ensures t <= r[j] {
        var i :| 0 <= i < |r| && r[i] == t;
      }
      assert Above(keys, r[j]) == {};
    } else {
      RankInOrder(keys, r, j + 1);
      forall t ensures t in Above(keys, r[j]) <==> t in Above(keys, r[j + 1]) + {r[j + 1]} {
        if t in keys {
          var i :| 0 <= i < |r| && r[i] == t;
        }
        assert r[j + 1] in keys;
      }
      assert Above(keys, r[j]) == Above(keys, r[j + 1]) + {r[j + 1]};
    }
  }

  lemma HeadIsMin(s: set<nat>, r: seq<nat>)
    requires r != [] && StrictlyIncreasing(r)
    requires forall x :: x in r <==> x in s
    ensures s != {} && MinOf(s) == r[0]
    ensures forall x :: x in r[1..] <==> x in s - {r[0]}
  {
    assert r[0] in s;
    var i :| 0 <= i < |r| && r[i] == MinOf(s);
    forall x ensures x in r[1..] <==> x in s - {r[0]} {
      if x in r[1..] {
        var j :| 0 <= j < |r[1..]| && r[1..][j] == x;
        assert r[j + 1] == x && r[0] < r[j + 1];
      }
      if x in s - {r[0]} {
        var j :| 0 <= j < |r| && r[j] == x;
        assert r[1..][j - 1] == x;
      }
    }
  }

  /** A set has only one increasing enumeration. */
  lemma {:induction false} SortedUnique(s: set<nat>, r: seq<nat>)
    requires StrictlyIncreasing(r)
    requires forall x :: x in r <==> x in s
    ensures Sorted(s) == r
    decreases |r|
  {
    if r == [] {
      assert forall x :: x !in s;
      assert s == {};
    } else {
      HeadIsMin(s, r);
      assert StrictlyIncreasing(r[1..]);
      SortedUnique(s - {r[0]}, r[1..]);
    }
  }

  lemma {:induction false} MaxExists(s: set<nat>) returns (m: nat)
    requires s != {}
    ensures m in s && forall x :: x in s ==> x <= m
  {
    var x :| x in s;
    if s == {x} {
      m := x;
    } else {
      var rest := s - {x};
      assert s == rest + {x};
      m := MaxExists(rest);
      if m < x { m := x; }
    }
  }

  /** The largest key; the source reads it with `keys().last()`. */
  function MaxOf(s: set<nat>): (m: nat)
    requires s != {}
    ensures m in s && forall x :: x in s ==> x <= m
  {
    assert exists m :: m in s && forall x :: x in s ==> x <= m by { var m := MaxExists(s); }
    var m :| m in s && forall x :: x in s ==> x <= m;
    m
  }

  lemma {:induction false} SubsetCardinality<T>(a: set<T>, b: set<T>)
    requires a <= b
    ensures |a| <= |b|
  {
    if a != {} {
      var x :| x in a;
      SubsetCardinality(a - {x}, b - {x});
    }
  }

  /** There are exactly `hi - lo` naturals in `(lo, hi]`. */
  lemma {:induction false} IntervalCardinality(s: set<nat>, lo: nat, hi: nat)
    requires lo <= hi
    requires forall x: nat :: x in s <==> lo < x <= hi
    ensures |s| == hi - lo
    decreases hi - lo
  {
    if lo == hi {
      assert forall x: nat :: x !in s;
      assert s == {};
    } else {
      IntervalCardinality(s - {hi}, lo, hi - 1);
      assert s == (s - {hi}) + {hi};
    }
  }
}
