/** Python's ordering of strings (code point by code point, a proper prefix
    first) and the helpers built on it. */
module Strings {

  /** `a <= b` on Python strings. */
  predicate LessEq(a: string, b: string)
    decreases |a|
  {
    if a == [] then true
    else if b == [] then false
    else a[0] < b[0] || (a[0] == b[0] && LessEq(a[1..], b[1..]))
  }

  lemma {:induction false} LessEqReflexive(a: string)
    ensures LessEq(a, a)
    decreases |a|
  {
    if a != [] {
      LessEqReflexive(a[1..]);
    }
  }

  lemma {:induction false} LessEqTotal(a: string, b: string)
    ensures LessEq(a, b) || LessEq(b, a)
    decreases |a|
  {
    if a != [] && b != [] && a[0] == b[0] {
      LessEqTotal(a[1..], b[1..]);
    }
  }

  lemma {:induction false} LessEqAntisymmetric(a: string, b: string)
    requires LessEq(a, b) && LessEq(b, a)
    ensures a == b
    decreases |a|
  {
    if a != [] {
      assert b != [] && a[0] == b[0];
      LessEqAntisymmetric(a[1..], b[1..]);
      assert a == [a[0]] + a[1..] && b == [b[0]] + b[1..];
    }
  }

  lemma {:induction false} LessEqTransitive(a: string, b: string, c: string)
    requires LessEq(a, b) && LessEq(b, c)
    ensures LessEq(a, c)
    decreases |a|
  {
    if a != [] {
      assert b != [] && c != [];
      if a[0] == b[0] && b[0] == c[0] {
        LessEqTransitive(a[1..], b[1..], c[1..]);
      }
    }
  }

  /** `x` is the least element of the set `s`. */
  ghost predicate IsLeast(x: string, s: set<string>)
  {
    x in s && forall y :: y in s ==> LessEq(x, y)
  }

  /** A set has at most one least element. */
  lemma LeastIsUnique(x: string, y: string, s: set<string>)
    requires IsLeast(x, s) && IsLeast(y, s)
    ensures x == y
  {
    LessEqAntisymmetric(x, y);
  }

  /** `sorted(s)[0]`: the least element of a non-empty list of strings. */
  function Least(s: seq<string>): (m: string)
    requires |s| > 0
    ensures m in s
    ensures forall x :: x in s ==> LessEq(m, x)
  {
    if |s| == 1 then
      LessEqReflexive(s[0]);
      s[0]
    else
      var rest := Least(s[1..]);
      LessEqTotal(s[0], rest);
      if LessEq(s[0], rest) then
        LessEqReflexive(s[0]);
        assert forall x :: x in s[1..] ==> LessEq(s[0], x) by {
          forall x | x in s[1..] ensures LessEq(s[0], x) {
            LessEqTransitive(s[0], rest, x);
          }
        }
        assert forall x :: x in s ==> x == s[0] || x in s[1..];
        s[0]
      else
        assert forall x :: x in s ==> x == s[0] || x in s[1..];
        rest
  }

  /** Every non-empty set of strings has a least element. */
  lemma {:induction false} LeastExists(s: set<string>)
    requires s != {}
    ensures exists x :: IsLeast(x, s)
    decreases |s|
  {
    var y :| y in s;
    if s == {y} {
      LessEqReflexive(y);
      assert IsLeast(y, s);
    } else {
      LeastExists(s - {y});
      var z :| IsLeast(z, s - {y});
      LessEqTotal(y, z);
      if LessEq(y, z) {
        LessEqReflexive(y);
        forall x | x in s ensures LessEq(y, x) {
          if x != y {
            LessEqTransitive(y, z, x);
          }
        }
        assert IsLeast(y, s);
      } else {
        assert IsLeast(z, s);
      }
    }
  }

  /** `sorted(s)[0]` for a non-empty set of strings. */
  ghost function LeastOf(s: set<string>): (m: string)
    requires s != {}
    ensures IsLeast(m, s)
  {
    LeastExists(s);
    var m :| IsLeast(m, s);
    m
  }

  /** Least of a list is the least of its set of elements, whatever the
      order or repetitions of the list. */
  lemma LeastIsLeastOf(l: seq<string>, s: set<string>)
    requires |l| > 0
    requires forall x :: x in l <==> x in s
    ensures s != {} && Least(l) == LeastOf(s)
  {
    assert l[0] in s;
    LeastIsUnique(Least(l), LeastOf(s), s);
  }

  /** `sep.join(parts)`. */
  function Join(parts: seq<string>, sep: string): string
  {
    if parts == [] then ""
    else if |parts| == 1 then parts[0]
    else parts[0] + sep + Join(parts[1..], sep)
  }

  /** `a in s` on two strings: a occurs in s as a contiguous piece. */
  predicate IsInfix(a: string, s: string)
  {
    exists k :: 0 <= k <= |s| && OccursAt(a, s, k)
  }

  /** a occurs in s starting at index k. */
  predicate OccursAt(a: string, s: string, k: int)
  {
    0 <= k && k + |a| <= |s| && s[k..k + |a|] == a
  }

  lemma InfixAt(a: string, s: string, k: nat)
    requires k + |a| <= |s| && s[k..k + |a|] == a
    ensures IsInfix(a, s)
  {
    assert OccursAt(a, s, k);
  }

  lemma InfixOfPrefix(a: string, s: string, t: string)
    requires IsInfix(a, s)
    ensures IsInfix(a, s + t)
  {
    var k :| 0 <= k <= |s| && OccursAt(a, s, k);
    assert (s + t)[k..k + |a|] == a;
    InfixAt(a, s + t, k);
  }

  lemma InfixOfSuffix(a: string, s: string, t: string)
    requires IsInfix(a, t)
    ensures IsInfix(a, s + t)
  {
    var k :| 0 <= k <= |t| && OccursAt(a, t, k);
    assert (s + t)[|s| + k..|s| + k + |a|] == a;
    InfixAt(a, s + t, |s| + k);
  }

  /** Every part is named in the joined string, and the separator occurs
      between consecutive parts. */
  lemma {:induction false} JoinNamesEveryPart(parts: seq<string>, sep: string)
    ensures forall i :: 0 <= i < |parts| ==> IsInfix(parts[i], Join(parts, sep))
    ensures |parts| >= 2 ==> IsInfix(parts[0] + sep, Join(parts, sep))
  {
    if |parts| == 1 {
      InfixAt(parts[0], Join(parts, sep), 0);
    } else if |parts| >= 2 {
      var rest := Join(parts[1..], sep);
      JoinNamesEveryPart(parts[1..], sep);
      assert Join(parts, sep) == (parts[0] + sep) + rest;
      InfixAt(parts[0] + sep, Join(parts, sep), 0);
      forall i | 0 <= i < |parts| ensures IsInfix(parts[i], Join(parts, sep)) {
        if i == 0 {
          InfixAt(parts[0], Join(parts, sep), 0);
        } else {
          assert parts[i] == parts[1..][i - 1];
          InfixOfSuffix(parts[i], parts[0] + sep, rest);
        }
      }
    }
  }
}
