// Small shared vocabulary: optional values, the unsigned 64-bit bound every
// persisted index obeys, and the ascending listing of a set of indexes that
// Python's `sorted` yields.
module Basics {

  datatype Option<+T> = None | Some(value: T)

  datatype Result<+T, +E> = Ok(value: T) | Err(error: E)

  type Byte = b: int | 0 <= b < 256

  const MAX_U64: nat := 0xFFFF_FFFF_FFFF_FFFF
  const MAX_U32: nat := 0xFFFF_FFFF

  function Max(a: int, b: int): int {
    if a >= b then a else b
  }

  function Min(a: int, b: int): int {
    if a <= b then a else b
  }

  lemma FindLeast(s: set<nat>) returns (m: nat)
    requires s != {}
    ensures m in s
    ensures forall x :: x in s ==> m <= x
  {
    var a :| a in s;
    var rest := s - {a};
    if rest == {} {
      m := a;
    } else {
      var n := FindLeast(rest);
      m := Min(a, n);
    }
    forall x | x in s
      ensures m <= x
    {
      assert x == a || x in rest;
    }
  }

  lemma LeastExists(s: set<nat>)
    requires s != {}
    ensures exists m :: m in s && forall x :: x in s ==> m <= x
  {
    var m := FindLeast(s);
  }

  function Least(s: set<nat>): (m: nat)
    requires s != {}
    ensures m in s
    ensures forall x :: x in s ==> m <= x
  {
    LeastExists(s);
    var m :| m in s && forall x :: x in s ==> m <= x;
    m
  }

  predicate Ascending(r: seq<nat>) {
    forall i, j :: 0 <= i < j < |r| ==> r[i] < r[j]
  }

  // Python's sorted() applied to a set of integers.
  function Sorted(s: set<nat>): (r: seq<nat>)
    ensures Ascending(r)
    ensures forall x :: x in r <==> x in s
    ensures |r| == |s|
    decreases |s|
  {
    if s == {} then [] else
      var m := Least(s);
      var rest := Sorted(s - {m});
      [m] + rest
  }

  function Below(keys: set<nat>, k: nat): set<nat> {
    set j | j in keys && j < k
  }

  lemma BelowNext(r: seq<nat>, keys: set<nat>, i: nat)
    requires Ascending(r) && 0 < i < |r|
    requires forall x :: x in r <==> x in keys
    ensures Below(keys, r[i]) == Below(keys, r[i - 1]) + {r[i - 1]}
  {
    forall x | x in Below(keys, r[i])
      ensures x in Below(keys, r[i - 1]) + {r[i - 1]}
    {
      var j :| 0 <= j < |r| && r[j] == x;
      assert j <= i - 1;
    }
  }

  // The i-th element of the ascending listing has exactly i elements below it.
  lemma RankInListing(r: seq<nat>, keys: set<nat>, i: nat)
    requires Ascending(r)
    requires forall x :: x in r <==> x in keys
    requires i < |r|
    ensures |Below(keys, r[i])| == i
    decreases i
  {
    if i == 0 {
      assert Below(keys, r[0]) == {};
    } else {
      RankInListing(r, keys, i - 1);
      BelowNext(r, keys, i);
    }
  }

  // The n entries with the smallest keys: dict(sorted(m.items())[:n]).
  function KeepSmallest<V>(m: map<nat, V>, n: nat): map<nat, V> {
    map k | k in m && |Below(m.Keys, k)| < n :: m[k]
  }

  lemma KeepSmallestOfSmall<V>(m: map<nat, V>, n: nat)
    requires |m| <= n
    ensures KeepSmallest(m, n) == m
  {
    forall k | k in m
      ensures |Below(m.Keys, k)| < n
    {
      assert Below(m.Keys, k) < m.Keys by { assert k in m.Keys && k !in Below(m.Keys, k); }
      SubsetSize(Below(m.Keys, k), m.Keys - {k});
    }
  }

  lemma SubsetSize<T>(a: set<T>, b: set<T>)
    requires a <= b
    ensures |a| <= |b|
  {
    if a != {} {
      var x :| x in a;
      SubsetSize(a - {x}, b - {x});
    }
  }

  lemma {:induction false} SizeOfAscending(r: seq<nat>, s: set<nat>)
    requires Ascending(r) && forall x :: x in s <==> x in r
    ensures |s| == |r|
  {
    if r == [] {
      assert s == {};
    } else {
      var front, last := r[..|r| - 1], r[|r| - 1];
      assert forall x :: x in r <==> x in front || x == last;
      assert last !in front;
      SizeOfAscending(front, s - {last});
    }
  }

  // What keeping the n smallest drops: only keys behind n kept ones.
  lemma DroppedBehindMany<V>(m: map<nat, V>, n: nat, k: nat)
    requires k in m && k !in KeepSmallest(m, n)
    ensures |KeepSmallest(m, n)| == n && forall j :: j in KeepSmallest(m, n) ==> j < k
  {
    hide Sorted, KeepSmallest;
    var r := Sorted(m.Keys);
    var kept := KeepSmallest(m, n);
    forall i | 0 <= i < |r|
      ensures r[i] in kept <==> i < n
    {
      RankInListing(r, m.Keys, i);
      KeptIff(m, n, r[i]);
    }
    assert k in r;
    var p :| 0 <= p < |r| && r[p] == k;
    KeptIsSubmap(m, n);
    FrontIs(r, kept.Keys, n);
    SizeOfAscending(r[..n], kept.Keys);
    assert forall j :: j in kept ==> j in r[..n];
  }

  lemma KeptIff<V>(m: map<nat, V>, n: nat, k: nat)
    requires k in m
    ensures k in KeepSmallest(m, n) <==> |Below(m.Keys, k)| < n
  {
  }

  lemma KeptIsSubmap<V>(m: map<nat, V>, n: nat)
    ensures KeepSmallest(m, n).Keys <= m.Keys
  {
  }

  // A set that holds exactly the first n of a list.
  lemma FrontIs(r: seq<nat>, kept: set<nat>, n: nat)
    requires n <= |r| && (forall j :: j in kept ==> j in r)
    requires forall i :: 0 <= i < |r| ==> (r[i] in kept <==> i < n)
    ensures forall j :: j in kept <==> j in r[..n]
  {
    forall j | j in kept
      ensures j in r[..n]
    {
      var i :| 0 <= i < |r| && r[i] == j;
    }
  }

  lemma KeepSmallestSize<V>(m: map<nat, V>, n: nat)
    ensures |KeepSmallest(m, n)| <= n
  {
    if |m| > n {
      var r := Sorted(m.Keys);
      RankInListing(r, m.Keys, |r| - 1);
      assert r[|r| - 1] in m;
      DroppedBehindMany(m, n, r[|r| - 1]);
    } else {
      KeepSmallestOfSmall(m, n);
    }
  }
}
