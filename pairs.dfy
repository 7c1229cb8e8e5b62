/** Pairing a list off two by two, as pair_teams_by_wl does after sorting. */
module Pairs {
  import opened Wrappers

  /** Consecutive elements two by two; a last odd element is dropped. */
  function PairUp<T>(s: seq<T>): (r: seq<(T, T)>)
    ensures |r| == |s| / 2
    ensures forall k :: 0 <= k < |r| ==> r[k] == (s[2 * k], s[2 * k + 1])
  {
    if |s| < 2 then [] else [(s[0], s[1])] + PairUp(s[2..])
  }

  /** The teams of a list of pairs, pair by pair. */
  function Flatten<T>(pairs: seq<(T, T)>): seq<T>
  {
    if pairs == [] then [] else [pairs[0].0, pairs[0].1] + Flatten(pairs[1..])
  }

  /** Pairing loses nothing but a last odd element: flattening the pairs gives
      back the list up to its even length. */
  lemma {:induction false} FlattenPairUp<T>(s: seq<T>)
    ensures Flatten(PairUp(s)) == s[..2 * (|s| / 2)]
  {
    if |s| >= 2 {
      FlattenPairUp(s[2..]);
      assert PairUp(s)[1..] == PairUp(s[2..]);
      assert s[..2 * (|s| / 2)] == [s[0], s[1]] + s[2..][..2 * (|s[2..]| / 2)];
    }
  }

  lemma {:induction false} PairUpSnoc<T>(s: seq<T>, x: T, y: T)
    requires |s| % 2 == 0
    ensures PairUp(s + [x, y]) == PairUp(s) + [(x, y)]
    decreases |s|
  {
    if |s| >= 2 {
      assert (s + [x, y])[2..] == s[2..] + [x, y];
      PairUpSnoc(s[2..], x, y);
    } else {
      assert |s| == 0;
      assert (s + [x, y])[2..] == [];
    }
  }

  /** Dropping a last odd element does not change the pairs. */
  lemma PairUpEvenPrefix<T>(s: seq<T>, i: nat)
    requires i % 2 == 0 && i <= |s| && i >= |s| - 1
    ensures PairUp(s[..i]) == PairUp(s)
  {
    var a := PairUp(s[..i]);
    var b := PairUp(s);
    assert |a| == |b|;
    forall k | 0 <= k < |a| ensures a[k] == b[k] {
    }
  }

  /** Pairing a list without repetitions uses each element at most once and
      only its own elements; with an odd length only the last is left out. */
  lemma PairUpValid<T>(s: seq<T>)
    requires NoDup(s)
    ensures NoDup(Flatten(PairUp(s)))
    ensures forall t :: t in Flatten(PairUp(s)) ==> t in s
    ensures |s| % 2 == 1 ==> Flatten(PairUp(s)) + [s[|s| - 1]] == s
  {
    var n := 2 * (|s| / 2);
    assert Flatten(PairUp(s)) == s[..n] by {
      FlattenPairUp(s);
    }
    PrefixOfNoDup(s, n);
  }

  lemma PrefixOfNoDup<T>(s: seq<T>, n: nat)
    requires NoDup(s) && n <= |s|
    ensures NoDup(s[..n])
    ensures forall t :: t in s[..n] ==> t in s
    ensures n == |s| - 1 ==> s[..n] + [s[n]] == s
  {
    var f := s[..n];
    forall i, j | 0 <= i < j < |f| ensures f[i] != f[j] {
      assert f[i] == s[i] && f[j] == s[j];
    }
    if n == |s| - 1 {
      assert f + [s[n]] == s;
    }
  }

}
