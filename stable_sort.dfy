/** Python's `sorted` with a key, in descending key order: the stable sort both
    pairing variants use. The keys are pairs compared lexicographically, the
    way Python compares tuples. */
module StableSort {

  /** A sort key: `major` decides, `minor` breaks ties. */
  datatype Rank = Rank(major: int, minor: int)

  /** x comes no later than y in descending order. */
  predicate AtLeast(x: Rank, y: Rank)
  {
    x.major > y.major || (x.major == y.major && x.minor >= y.minor)
  }

  predicate SortedDesc<T>(s: seq<T>, key: T -> Rank)
  {
    forall i, j :: 0 <= i < j < |s| ==> AtLeast(key(s[i]), key(s[j]))
  }

  /** The elements of s whose key is k, in the order of s. A sort is stable
      exactly when it keeps each of these subsequences as it was. */
  function WithRank<T>(s: seq<T>, key: T -> Rank, k: Rank): seq<T>
  {
    if s == [] then [] else (if key(s[0]) == k then [s[0]] else []) + WithRank(s[1..], key, k)
  }

  lemma {:induction false} WithRankConcat<T>(a: seq<T>, b: seq<T>, key: T -> Rank, k: Rank)
    ensures WithRank(a + b, key, k) == WithRank(a, key, k) + WithRank(b, key, k)
  {
    if a != [] {
      assert (a + b)[0] == a[0];
      assert (a + b)[1..] == a[1..] + b;
      WithRankConcat(a[1..], b, key, k);
    } else {
      assert a + b == b;
    }
  }

  /** Insert x before the first element it ranks at least as high as. */
  function Insert<T>(x: T, s: seq<T>, key: T -> Rank): (r: seq<T>)
    requires SortedDesc(s, key)
    ensures SortedDesc(r, key)
    ensures multiset(r) == multiset(s) + multiset{x}
    ensures forall k :: WithRank(r, key, k) == WithRank([x] + s, key, k)
  {
    if s == [] || AtLeast(key(x), key(s[0])) then
      [x] + s
    else
      var rest := Insert(x, s[1..], key);
      InsertStep(x, s, rest, key);
      [s[0]] + rest
  }

  /** The recursive case of Insert: x ranks strictly below s[0]. */
  lemma InsertStep<T>(x: T, s: seq<T>, rest: seq<T>, key: T -> Rank)
    requires SortedDesc(s, key) && s != [] && !AtLeast(key(x), key(s[0]))
    requires SortedDesc(rest, key)
    requires multiset(rest) == multiset(s[1..]) + multiset{x}
    requires forall k :: WithRank(rest, key, k) == WithRank([x] + s[1..], key, k)
    ensures SortedDesc([s[0]] + rest, key)
    ensures multiset([s[0]] + rest) == multiset(s) + multiset{x}
    ensures forall k :: WithRank([s[0]] + rest, key, k) == WithRank([x] + s, key, k)
  {
    assert s == [s[0]] + s[1..];
    InsertStepSorted(x, s, rest, key);
    forall k ensures WithRank([s[0]] + rest, key, k) == WithRank([x] + s, key, k) {
      InsertStepRank(x, s, rest, key, k);
    }
  }

  lemma InsertStepSorted<T>(x: T, s: seq<T>, rest: seq<T>, key: T -> Rank)
    requires SortedDesc(s, key) && s != [] && !AtLeast(key(x), key(s[0]))
    requires SortedDesc(rest, key)
    requires multiset(rest) == multiset(s[1..]) + multiset{x}
    ensures SortedDesc([s[0]] + rest, key)
  {
    var r := [s[0]] + rest;
    forall j | 0 < j < |r| ensures AtLeast(key(r[0]), key(r[j])) {
      var y := r[j];
      assert y == rest[j - 1];
      assert y in multiset(rest);
      if y != x {
        assert y in multiset(s[1..]);
        var i :| 0 <= i < |s[1..]| && s[1..][i] == y;
        assert s[i + 1] == y;
      }
    }
  }

  lemma InsertStepRank<T>(x: T, s: seq<T>, rest: seq<T>, key: T -> Rank, k: Rank)
    requires s != [] && !AtLeast(key(x), key(s[0]))
    requires WithRank(rest, key, k) == WithRank([x] + s[1..], key, k)
    ensures WithRank([s[0]] + rest, key, k) == WithRank([x] + s, key, k)
  {
    var hs := if key(s[0]) == k then [s[0]] else [];
    var hx := if key(x) == k then [x] else [];
    assert hs == [] || hx == [];
    assert ([s[0]] + rest)[1..] == rest;
    assert ([x] + s[1..])[1..] == s[1..];
    assert ([x] + s)[1..] == s;
    assert WithRank([s[0]] + rest, key, k) == hs + hx + WithRank(s[1..], key, k);
    assert WithRank(s, key, k) == hs + WithRank(s[1..], key, k);
  }

  /** `sorted(s, key=..., reverse=True)`, by insertion from the back. */
  function Sort<T>(s: seq<T>, key: T -> Rank): (r: seq<T>)
    ensures SortedDesc(r, key)
    ensures multiset(r) == multiset(s)
    ensures forall k :: WithRank(r, key, k) == WithRank(s, key, k)
  {
    if s == [] then []
    else
      var r := Insert(s[0], Sort(s[1..], key), key);
      assert s == [s[0]] + s[1..];
      forall k ensures WithRank(r, key, k) == WithRank(s, key, k) {
        WithRankConcat([s[0]], Sort(s[1..], key), key, k);
        WithRankConcat([s[0]], s[1..], key, k);
      }
      r
  }

  lemma {:induction false} HeadRanksHighest<T>(q: seq<T>, key: T -> Rank, k: Rank)
    requires SortedDesc(q, key)
    requires WithRank(q, key, k) != []
    ensures q != [] && AtLeast(key(q[0]), k)
  {
    if key(q[0]) != k {
      HeadRanksHighest(q[1..], key, k);
      assert q[1..][0] == q[1];
    }
  }

  lemma NoRanksEmpty<T>(q: seq<T>, key: T -> Rank)
    requires forall k :: WithRank(q, key, k) == []
    ensures q == []
  {
    var k := if q == [] then Rank(0, 0) else key(q[0]);
    assert WithRank(q, key, k) == [];
  }

  /** Two descending-sorted sequences that agree on every key's subsequence
      are equal. */
  lemma {:induction false} SortedStableUnique<T>(r: seq<T>, q: seq<T>, key: T -> Rank)
    requires SortedDesc(r, key) && SortedDesc(q, key)
    requires forall k :: WithRank(r, key, k) == WithRank(q, key, k)
    ensures r == q
    decreases |r|
  {
    if r == [] {
      NoRanksEmpty(q, key);
    } else {
      var a := key(r[0]);
      assert WithRank(r, key, a) != [];
      HeadRanksHighest(q, key, a);
      var b := key(q[0]);
      assert WithRank(q, key, b) != [];
      HeadRanksHighest(r, key, b);
      assert a == b;
      assert WithRank(r, key, a)[0] == r[0] && WithRank(q, key, a)[0] == q[0];
      assert r[0] == q[0];
      forall k ensures WithRank(r[1..], key, k) == WithRank(q[1..], key, k) {
        var head := if a == k then [r[0]] else [];
        assert WithRank(r, key, k) == head + WithRank(r[1..], key, k);
        assert WithRank(q, key, k) == head + WithRank(q[1..], key, k);
        assert WithRank(r[1..], key, k) == WithRank(r, key, k)[|head|..];
        assert WithRank(q[1..], key, k) == WithRank(q, key, k)[|head|..];
      }
      SortedStableUnique(r[1..], q[1..], key);
      assert r == [r[0]] + r[1..] && q == [q[0]] + q[1..];
    }
  }

  /** Sort is exactly the stable descending sort: any sorted rearrangement
      that keeps the order among equal keys is its result. */
  lemma SortIsTheStableSort<T>(s: seq<T>, r: seq<T>, key: T -> Rank)
    requires SortedDesc(r, key)
    requires forall k :: WithRank(r, key, k) == WithRank(s, key, k)
    ensures r == Sort(s, key)
  {
    SortedStableUnique(r, Sort(s, key), key);
  }

  /** When every key is the same, sorting keeps the input order. */
  lemma SortEqualKeys<T>(s: seq<T>, key: T -> Rank)
    requires forall i, j :: 0 <= i < j < |s| ==> key(s[i]) == key(s[j])
    ensures Sort(s, key) == s
  {
    SortIsTheStableSort(s, s, key);
  }
}
