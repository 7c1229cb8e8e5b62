/** Team records as the tournament document stores them, and the sums the
    services compute over a tournament's list of teams. */
module Teams {
  import opened Wrappers
  import opened Json

  /** Team, player and tournament identifiers are whatever JSON value the
      request carried. */
  type Id = Value

  datatype Stats = Stats(elo: int, wins: int, losses: int)

  /** A team record: its id, its players' ids and its stats. */
  datatype Team = Team(teamId: Id, players: seq<Id>, stats: Stats)

  function TeamIds(teams: seq<Team>): (ids: seq<Id>)
    ensures |ids| == |teams|
    ensures forall i :: 0 <= i < |teams| ==> ids[i] == teams[i].teamId
  {
    seq(|teams|, i requires 0 <= i < |teams| => teams[i].teamId)
  }

  /** No two teams of the list share an id. */
  predicate DistinctIds(teams: seq<Team>)
  {
    NoDup(TeamIds(teams))
  }

  /** Dropping the first team keeps the ids distinct, and no later team
      has the first one's id. */
  lemma DistinctTail(teams: seq<Team>)
    requires teams != [] && DistinctIds(teams)
    ensures DistinctIds(teams[1..])
    ensures forall u :: u in teams[1..] ==> u.teamId != teams[0].teamId
  {
    var ids, rest := TeamIds(teams), teams[1..];
    forall i, j | 0 <= i < j < |rest| ensures TeamIds(rest)[i] != TeamIds(rest)[j] {
      assert ids[i + 1] != ids[j + 1];
    }
    forall u | u in rest ensures u.teamId != teams[0].teamId {
      var m :| 0 <= m < |rest| && rest[m] == u;
      assert ids[0] != ids[m + 1];
    }
  }

  /** A team whose id no team of `rest` has can go in front of it. */
  lemma DistinctCons(t: Team, rest: seq<Team>)
    requires DistinctIds(rest)
    requires forall u :: u in rest ==> u.teamId != t.teamId
    ensures DistinctIds([t] + rest)
  {
    var r := [t] + rest;
    forall i, j | 0 <= i < j < |r| ensures TeamIds(r)[i] != TeamIds(r)[j] {
      assert r[j] == rest[j - 1];
      if i > 0 {
        assert r[i] == rest[i - 1];
        assert TeamIds(rest)[i - 1] != TeamIds(rest)[j - 1];
      }
    }
  }

  /** The sum of the teams' ratings. */
  function SumElo(teams: seq<Team>): int
  {
    if teams == [] then 0 else SumElo(teams[..|teams| - 1]) + teams[|teams| - 1].stats.elo
  }

  /** 1 when the team is listed under the id x, 0 otherwise. */
  function IsId(team: Team, x: Value): int
  {
    if team.teamId == x then 1 else 0
  }

  /** The number of teams listed with the id x. */
  function CountId(teams: seq<Team>, x: Value): nat
  {
    if teams == [] then 0
    else CountId(teams[..|teams| - 1], x) + IsId(teams[|teams| - 1], x)
  }

  /** The number of players over all teams, counted per listing. */
  function TotalPlayers(teams: seq<Team>): nat
  {
    if teams == [] then 0 else TotalPlayers(teams[..|teams| - 1]) + |teams[|teams| - 1].players|
  }

  /** The players of all the teams. */
  function AllPlayers(teams: seq<Team>): set<Id>
  {
    set i, p | 0 <= i < |teams| && p in teams[i].players :: p
  }

  lemma TeamIdsConcat(x: seq<Team>, y: seq<Team>)
    ensures TeamIds(x + y) == TeamIds(x) + TeamIds(y)
  {
  }

  lemma RemoveAtMultiset<T>(b: seq<T>, i: int)
    requires 0 <= i < |b|
    ensures multiset(b[..i] + b[i + 1..]) == multiset(b) - multiset{b[i]}
  {
    assert b == b[..i] + [b[i]] + b[i + 1..];
  }

  lemma SplitAt<T>(b: seq<T>, i: int)
    requires 0 <= i < |b|
    ensures b == b[..i] + ([b[i]] + b[i + 1..])
  {
  }

  lemma TeamIdsRemoveAt(b: seq<Team>, i: int)
    requires 0 <= i < |b|
    ensures multiset(TeamIds(b)) == multiset{b[i].teamId} + multiset(TeamIds(b[..i] + b[i + 1..]))
  {
    SplitAt(b, i);
    TeamIdsConcat(b[..i], [b[i]] + b[i + 1..]);
    TeamIdsConcat([b[i]], b[i + 1..]);
    TeamIdsConcat(b[..i], b[i + 1..]);
    assert TeamIds([b[i]]) == [b[i].teamId];
  }

  /** The same multiset of teams gives the same multiset of ids. */
  lemma {:induction false} TeamIdsPermutation(a: seq<Team>, b: seq<Team>)
    requires multiset(a) == multiset(b)
    ensures multiset(TeamIds(a)) == multiset(TeamIds(b))
    decreases |a|
  {
    if a == [] {
      assert b == [] by { assert |multiset(b)| == 0; }
    } else {
      var i := FindMatching(a, b);
      TeamIdsPermutation(a[1..], b[..i] + b[i + 1..]);
      TeamIdsStep(a, b, i);
    }
  }

  /** The position in b of a's first team. */
  lemma FindMatching<T>(a: seq<T>, b: seq<T>) returns (i: nat)
    requires multiset(a) == multiset(b) && a != []
    ensures i < |b| && b[i] == a[0]
    ensures multiset(a[1..]) == multiset(b[..i] + b[i + 1..])
  {
    assert a[0] in multiset(b);
    i :| 0 <= i < |b| && b[i] == a[0];
    RemoveMatching(a, b, i);
  }

  lemma TeamIdsStep(a: seq<Team>, b: seq<Team>, i: nat)
    requires a != [] && i < |b| && b[i] == a[0]
    requires multiset(TeamIds(a[1..])) == multiset(TeamIds(b[..i] + b[i + 1..]))
    ensures multiset(TeamIds(a)) == multiset(TeamIds(b))
  {
    calc {
      multiset(TeamIds(a));
    ==  { TeamIdsRemoveFirst(a); }
      multiset{a[0].teamId} + multiset(TeamIds(a[1..]));
    ==
      multiset{b[i].teamId} + multiset(TeamIds(b[..i] + b[i + 1..]));
    ==  { TeamIdsRemoveAt(b, i); }
      multiset(TeamIds(b));
    }
  }

  lemma TeamIdsRemoveFirst(a: seq<Team>)
    requires a != []
    ensures multiset(TeamIds(a)) == multiset{a[0].teamId} + multiset(TeamIds(a[1..]))
  {
    assert a == [a[0]] + a[1..];
    TeamIdsConcat([a[0]], a[1..]);
    assert TeamIds([a[0]]) == [a[0].teamId];
  }

  /** Taking the same team out of two permutations leaves permutations. */
  lemma RemoveMatching<T>(a: seq<T>, b: seq<T>, i: nat)
    requires multiset(a) == multiset(b) && a != [] && i < |b| && b[i] == a[0]
    ensures multiset(a[1..]) == multiset(b[..i] + b[i + 1..])
  {
    calc {
      multiset(b[..i] + b[i + 1..]);
    ==  { RemoveAtMultiset(b, i); }
      multiset(b) - multiset{b[i]};
    ==
      multiset(a) - multiset{a[0]};
    ==  { assert a == [a[0]] + a[1..]; }
      multiset(a[1..]);
    }
  }

  lemma {:induction false} NoDupCounts<T>(s: seq<T>, x: T)
    requires NoDup(s)
    ensures multiset(s)[x] <= 1
  {
    if s != [] {
      assert s == [s[0]] + s[1..];
      assert NoDup(s[1..]) by {
        forall i, j | 0 <= i < j < |s[1..]| ensures s[1..][i] != s[1..][j] {
          assert s[1..][i] == s[i + 1] && s[1..][j] == s[j + 1];
        }
      }
      NoDupCounts(s[1..], x);
      if s[0] == x {
        assert x !in s[1..] by {
          forall k | 0 <= k < |s[1..]| ensures s[1..][k] != x {
            assert s[1..][k] == s[k + 1];
          }
        }
      }
    }
  }

  /** A rearrangement of a duplicate-free sequence is duplicate-free. */
  lemma NoDupPermutation<T>(a: seq<T>, b: seq<T>)
    requires multiset(a) == multiset(b) && NoDup(a)
    ensures NoDup(b)
  {
    forall i, j | 0 <= i < j < |b| ensures b[i] != b[j] {
      NoDupCounts(a, b[i]);
      RepeatCounts(b, i, j);
    }
  }

  lemma RepeatCounts<T>(b: seq<T>, i: int, j: int)
    requires 0 <= i < j < |b|
    ensures b[i] == b[j] ==> multiset(b)[b[i]] >= 2
  {
    assert b == b[..i] + [b[i]] + b[i + 1..j] + [b[j]] + b[j + 1..];
    assert multiset(b) == multiset(b[..i]) + multiset{b[i]} + multiset(b[i + 1..j]) + multiset{b[j]} + multiset(b[j + 1..]);
  }
}
