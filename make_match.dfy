/** The make-match composite: rank the tournament's teams, pair them on days
    they are both available, and create one match per pair. */
module MakeMatch {
  import opened Wrappers
  import opened Json
  import opened Strings
  import opened PyInt
  import opened StableSort
  import opened Teams
  import opened ScheduleService
  import opened Http

  // ---------------------------------------------------------------------
  // sort_teams

  /** The ranking key: wins first, ELO to break ties. */
  function RankKey(t: Team): Rank
  {
    Rank(t.stats.wins, t.stats.elo)
  }

  /** sort_teams: most wins first, then highest ELO; teams that tie on both
      keep their listed order. */
  function SortTeams(teams: seq<Team>): (r: seq<Team>)
    ensures multiset(r) == multiset(teams)
    ensures forall i, j :: 0 <= i < j < |r| ==>
              r[i].stats.wins > r[j].stats.wins ||
              (r[i].stats.wins == r[j].stats.wins && r[i].stats.elo >= r[j].stats.elo)
    ensures forall k :: WithRank(r, RankKey, k) == WithRank(teams, RankKey, k)
  {
    var r := Sort(teams, RankKey);
    assert forall i, j :: 0 <= i < j < |r| ==> AtLeast(RankKey(r[i]), RankKey(r[j]));
    r
  }

  // ---------------------------------------------------------------------
  // The team → days map built from the availability dictionary

  /** For each team id, the days it is available, in day order. */
  type TeamDays = map<Id, seq<string>>

  function DaysOf(td: TeamDays, t: Id): seq<string>
  {
    if t in td then td[t] else []
  }

  /** `td` lists, for every team, exactly the days whose list names it. */
  ghost predicate Inverts(td: TeamDays, av: Availability)
  {
    forall t, d :: d in DaysOf(td, t) <==> d in av.lists && t in av.lists[d]
  }

  method InvertAvailability(av: Availability) returns (td: TeamDays)
    requires av.Wf()
    ensures Inverts(td, av)
  {
    td := map[];
    for k := 0 to |av.order|
      invariant InvertsOn(td, av, av.order[..k], "", [])
    {
      var day := av.order[k];
      var dayTeams := av.lists[day];
      for m := 0 to |dayTeams|
        invariant InvertsOn(td, av, av.order[..k], day, dayTeams[..m])
      {
        var t := dayTeams[m];
        InvertsOnAdd(td, av, av.order[..k], day, dayTeams[..m], t);
        assert dayTeams[..m + 1] == dayTeams[..m] + [t];
        td := td[t := DaysOf(td, t) + [day]];
      }
      assert dayTeams[..|dayTeams|] == dayTeams;
      assert av.order[..k + 1] == av.order[..k] + [day];
      InvertsOnClose(td, av, av.order[..k], day);
    }
    assert av.order[..|av.order|] == av.order;
  }

  /** `td` lists, for every team, the days of `days` whose list names it,
      and `day` for the teams of `listed`. */
  ghost predicate InvertsOn(td: TeamDays, av: Availability, days: seq<string>, day: string, listed: seq<Id>)
  {
    forall t, d :: d in DaysOf(td, t) <==> ListedOn(av, days, day, listed, t, d)
  }

  /** t is named on day d, d one of `days`, or d is `day` and t is in `listed`. */
  predicate ListedOn(av: Availability, days: seq<string>, day: string, listed: seq<Id>, t: Id, d: string)
  {
    (d in days && d in av.lists && t in av.lists[d]) || (d == day && t in listed)
  }

  /** Giving one more team of the day its entry. */
  lemma InvertsOnAdd(td: TeamDays, av: Availability, days: seq<string>, day: string, listed: seq<Id>, t: Id)
    requires InvertsOn(td, av, days, day, listed)
    ensures InvertsOn(td[t := DaysOf(td, t) + [day]], av, days, day, listed + [t])
  {
    forall u, d ensures d in DaysOf(td[t := DaysOf(td, t) + [day]], u) <==> ListedOn(av, days, day, listed + [t], u, d) {
      AddedDays(td, t, day, u, d);
      assert d in DaysOf(td, u) <==> ListedOn(av, days, day, listed, u, d);
      assert u in listed + [t] <==> u in listed || u == t;
    }
  }

  lemma AddedDays(td: TeamDays, t: Id, day: string, u: Id, d: string)
    ensures d in DaysOf(td[t := DaysOf(td, t) + [day]], u) <==> d in DaysOf(td, u) || (u == t && d == day)
  {
    if u == t {
      assert DaysOf(td[t := DaysOf(td, t) + [day]], u) == DaysOf(td, u) + [day];
    }
  }

  /** Once all the teams of the day have it, the day joins the days done. */
  lemma InvertsOnClose(td: TeamDays, av: Availability, days: seq<string>, day: string)
    requires day in av.lists && InvertsOn(td, av, days, day, av.lists[day])
    ensures InvertsOn(td, av, days + [day], "", [])
  {
  }

  // ---------------------------------------------------------------------
  // Common days

  /** The days on which both teams are available. */
  function Shared(av: Availability, a: Id, b: Id): set<string>
  {
    set d | d in av.lists && a in av.lists[d] && b in av.lists[d]
  }

  lemma SharedSymmetric(av: Availability, a: Id, b: Id)
    ensures Shared(av, a, b) == Shared(av, b, a)
  {
  }

  /** The elements of xs that also occur in ys, in the order of xs. */
  function CommonList(xs: seq<string>, ys: seq<string>): (r: seq<string>)
    ensures forall x :: x in r <==> x in xs && x in ys
  {
    if xs == [] then []
    else
      assert forall x :: x in xs <==> x == xs[0] || x in xs[1..];
      (if xs[0] in ys then [xs[0]] else []) + CommonList(xs[1..], ys)
  }

  /** The day a pair plays on: the alphabetically first common day. */
  method CommonDay(td: TeamDays, ghost av: Availability, a: Id, b: Id) returns (day: Option<string>)
    requires Inverts(td, av)
    ensures day.None? <==> Shared(av, a, b) == {}
    ensures day.Some? ==> Shared(av, a, b) != {} && day.value == LeastOf(Shared(av, a, b))
  {
    var common := CommonList(DaysOf(td, a), DaysOf(td, b));
    assert forall x :: x in common <==> x in Shared(av, a, b);
    if common == [] {
      return None;
    }
    LeastIsLeastOf(common, Shared(av, a, b));
    day := Some(Least(common));
  }

  // ---------------------------------------------------------------------
  // The greedy pass over the ranked teams

  datatype Pair = Pair(teamA: Id, teamB: Id, day: string)

  /** The pairs made so far and the ids of the teams already in one. */
  datatype Greedy = Greedy(pairs: seq<Pair>, used: set<Id>)

  /** Pair a and b on `day`. */
  function Step(g: Greedy, a: Id, b: Id, day: string): Greedy
  {
    Greedy(g.pairs + [Pair(a, b, day)], g.used + {a, b})
  }

  /** ranked[q] is a partner ranked[i] may take: not yet paired, and sharing a
      day with it. */
  predicate Available(ranked: seq<Team>, av: Availability, i: nat, q: nat, used: set<Id>)
    requires i < |ranked| && q < |ranked|
  {
    ranked[q].teamId !in used && Shared(av, ranked[i].teamId, ranked[q].teamId) != {}
  }

  /** The first partner for ranked[i] at position j or later. */
  function FirstPartner(ranked: seq<Team>, av: Availability, i: nat, j: nat, used: set<Id>): (r: Option<nat>)
    requires i < j <= |ranked|
    ensures r.Some? ==> j <= r.value < |ranked| && Available(ranked, av, i, r.value, used)
    ensures forall q :: j <= q < |ranked| && (r.None? || q < r.value) ==> !Available(ranked, av, i, q, used)
    decreases |ranked| - j
  {
    if j == |ranked| then None
    else if Available(ranked, av, i, j, used) then Some(j)
    else FirstPartner(ranked, av, i, j + 1, used)
  }

  /** One turn of the greedy pass, for the team at position i. */
  ghost function NextGreedy(ranked: seq<Team>, av: Availability, i: nat, g: Greedy): Greedy
    requires i < |ranked|
  {
    var t1 := ranked[i].teamId;
    if t1 in g.used then g
    else
      match FirstPartner(ranked, av, i, i + 1, g.used)
      case None => g
      case Some(k) =>
        var t2 := ranked[k].teamId;
        Step(g, t1, t2, LeastOf(Shared(av, t1, t2)))
  }

  /** The greedy pass from position i on, starting from g. */
  ghost function GreedyFrom(ranked: seq<Team>, av: Availability, i: nat, g: Greedy): Greedy
    requires i <= |ranked|
    decreases |ranked| - i
  {
    if i == |ranked| then g else GreedyFrom(ranked, av, i + 1, NextGreedy(ranked, av, i, g))
  }

  ghost function GreedyPairing(ranked: seq<Team>, av: Availability): Greedy
  {
    GreedyFrom(ranked, av, 0, Greedy([], {}))
  }

  /** The first loop of create_match_pairs: each still unpaired team, best
      ranked first, takes the first later unpaired team it shares a day with. */
  method GreedyPass(ranked: seq<Team>, td: TeamDays, ghost av: Availability) returns (g: Greedy)
    requires Inverts(td, av)
    ensures g == GreedyPairing(ranked, av)
  {
    var pairs: seq<Pair> := [];
    var used: set<Id> := {};
    for i := 0 to |ranked|
      invariant GreedyFrom(ranked, av, i, Greedy(pairs, used)) == GreedyPairing(ranked, av)
    {
      var t1 := ranked[i].teamId;
      if t1 in used {
        continue;
      }
      ghost var g0 := Greedy(pairs, used);
      var j := i + 1;
      while j < |ranked|
        invariant i + 1 <= j <= |ranked|
        invariant Greedy(pairs, used) == g0
        invariant FirstPartner(ranked, av, i, j, used) == FirstPartner(ranked, av, i, i + 1, used)
        decreases |ranked| - j
      {
        var t2 := ranked[j].teamId;
        if t2 !in used {
          var day := CommonDay(td, av, t1, t2);
          if day.Some? {
            assert FirstPartner(ranked, av, i, i + 1, g0.used) == Some(j);
            pairs := pairs + [Pair(t1, t2, day.value)];
            used := used + {t1, t2};
            assert Greedy(pairs, used) == Step(g0, t1, t2, LeastOf(Shared(av, t1, t2)));
            break;
          }
        }
        j := j + 1;
      }
    }
    g := Greedy(pairs, used);
  }

  // ---------------------------------------------------------------------
  // The fallback over the teams the greedy pass left over

  /** The first team of rest, at position j or later, that shares a day
      with the team t. */
  function FirstSharing(rest: seq<Team>, av: Availability, t: Id, j: nat): (r: Option<nat>)
    requires j <= |rest|
    ensures r.Some? ==> j <= r.value < |rest| && Shared(av, t, rest[r.value].teamId) != {}
    ensures forall q :: j <= q < |rest| && (r.None? || q < r.value) ==> Shared(av, t, rest[q].teamId) == {}
    decreases |rest| - j
  {
    if j == |rest| then None
    else if Shared(av, t, rest[j].teamId) != {} then Some(j)
    else FirstSharing(rest, av, t, j + 1)
  }

  /** The fallback loop: take the last remaining team, pair it with the first
      remaining team it shares a day with, and give up (None) when there is
      none. */
  ghost function FallbackFrom(rem: seq<Team>, av: Availability, pairs: seq<Pair>): Option<seq<Pair>>
    decreases |rem|
  {
    if |rem| < 2 then Some(pairs)
    else
      var t1 := rem[|rem| - 1];
      var rest := rem[..|rem| - 1];
      match FirstSharing(rest, av, t1.teamId, 0)
      case None => None
      case Some(k) =>
        var t2 := rest[k].teamId;
        FallbackFrom(rest[..k] + rest[k + 1..], av, pairs + [Pair(t1.teamId, t2, LeastOf(Shared(av, t1.teamId, t2)))])
  }

  method Fallback(remaining: seq<Team>, pairs: seq<Pair>, td: TeamDays, ghost av: Availability)
    returns (r: Option<seq<Pair>>)
    requires Inverts(td, av)
    ensures r == FallbackFrom(remaining, av, pairs)
  {
    var rem := remaining;
    var ps := pairs;
    while |rem| >= 2
      invariant FallbackFrom(rem, av, ps) == FallbackFrom(remaining, av, pairs)
      decreases |rem|
    {
      var t1 := rem[|rem| - 1];
      rem := rem[..|rem| - 1];
      var found := false;
      var i := 0;
      while i < |rem|
        invariant i <= |rem|
        invariant FirstSharing(rem, av, t1.teamId, i) == FirstSharing(rem, av, t1.teamId, 0)
        decreases |rem| - i
      {
        var day := CommonDay(td, av, t1.teamId, rem[i].teamId);
        if day.Some? {
          assert FirstSharing(rem, av, t1.teamId, 0) == Some(i);
          ps := ps + [Pair(t1.teamId, rem[i].teamId, day.value)];
          found := true;
          break;
        }
        i := i + 1;
      }
      if !found {
        return None;
      }
      rem := rem[..i] + rem[i + 1..];
    }
    r := Some(ps);
  }

  // ---------------------------------------------------------------------
  // create_match_pairs

  /** The teams whose ids are not in `used`, in their order. */
  function Unpaired(teams: seq<Team>, used: set<Id>): (r: seq<Team>)
    ensures forall t :: t in r <==> t in teams && t.teamId !in used
  {
    if teams == [] then []
    else
      assert forall t :: t in teams <==> t == teams[0] || t in teams[1..];
      (if teams[0].teamId in used then [] else [teams[0]]) + Unpaired(teams[1..], used)
  }

  /** What create_match_pairs returns for a given shuffle of the leftover
      teams. */
  ghost function PairsOf(teams: seq<Team>, av: Availability, shuffle: seq<Team> -> seq<Team>): Option<seq<Pair>>
  {
    var g := GreedyPairing(SortTeams(teams), av);
    FallbackFrom(shuffle(Unpaired(teams, g.used)), av, g.pairs)
  }

  /** create_match_pairs; `shuffle` stands for random.shuffle. */
  method CreateMatchPairs(teams: seq<Team>, av: Availability, shuffle: seq<Team> -> seq<Team>)
    returns (r: Option<seq<Pair>>)
    requires av.Wf()
    ensures r == PairsOf(teams, av, shuffle)
  {
    var td := InvertAvailability(av);
    var ranked := SortTeams(teams);
    var g := GreedyPass(ranked, td, av);
    var remaining := shuffle(Unpaired(teams, g.used));
    r := Fallback(remaining, g.pairs, td, av);
  }

  // ---------------------------------------------------------------------
  // What the greedy pass guarantees

  /** The team ids a list of pairs mentions, pair by pair. */
  function PairIds(pairs: seq<Pair>): seq<Id>
  {
    if pairs == [] then []
    else PairIds(pairs[..|pairs| - 1]) + [pairs[|pairs| - 1].teamA, pairs[|pairs| - 1].teamB]
  }

  /** The pair's first team is ranked above its second. */
  ghost predicate PairRanked(ranked: seq<Team>, p: Pair)
  {
    exists a, b :: 0 <= a < b < |ranked| && ranked[a].teamId == p.teamA && ranked[b].teamId == p.teamB
  }

  /** The pair plays on the alphabetically first day both teams are free. */
  ghost predicate OnFirstCommonDay(av: Availability, p: Pair)
  {
    Shared(av, p.teamA, p.teamB) != {} && p.day == LeastOf(Shared(av, p.teamA, p.teamB))
  }

  /** The state of the greedy pass after the turns of positions 0 .. i-1. */
  ghost predicate GreedyInv(ranked: seq<Team>, av: Availability, i: nat, g: Greedy)
  {
    && (forall n :: 0 <= n < |g.pairs| ==> PairRanked(ranked, g.pairs[n]) && OnFirstCommonDay(av, g.pairs[n]))
    && g.used == Elems(PairIds(g.pairs))
    && NoDup(PairIds(g.pairs))
    && (forall p, q :: 0 <= p < i && p < q < |ranked| && ranked[p].teamId !in g.used && ranked[q].teamId !in g.used
          ==> Shared(av, ranked[p].teamId, ranked[q].teamId) == {})
  }

  lemma PairIdsSnoc(pairs: seq<Pair>, p: Pair)
    ensures PairIds(pairs + [p]) == PairIds(pairs) + [p.teamA, p.teamB]
  {
    assert (pairs + [p])[..|pairs|] == pairs;
  }

  lemma NoDupSnoc2<T>(s: seq<T>, x: T, y: T)
    requires NoDup(s) && x !in s && y !in s && x != y
    ensures NoDup(s + [x, y])
  {
    var r := s + [x, y];
    forall i, j | 0 <= i < j < |r| ensures r[i] != r[j] {
      if j == |s| + 1 && i < |s| {
        assert r[i] in s;
      } else if j == |s| {
        assert r[i] in s;
      }
    }
  }

  lemma {:induction false} GreedyStep(ranked: seq<Team>, av: Availability, i: nat, g: Greedy)
    requires DistinctIds(ranked)
    requires i < |ranked| && GreedyInv(ranked, av, i, g)
    ensures GreedyInv(ranked, av, i + 1, NextGreedy(ranked, av, i, g))
  {
    var t1 := ranked[i].teamId;
    if t1 !in g.used {
      var fp := FirstPartner(ranked, av, i, i + 1, g.used);
      if fp.Some? {
        GreedyStepPaired(ranked, av, i, g, fp.value);
      } else {
        GreedyStepAlone(ranked, av, i, g);
      }
    }
  }

  /** The turn of position i pairs it with the available team k. */
  lemma GreedyStepPaired(ranked: seq<Team>, av: Availability, i: nat, g: Greedy, k: nat)
    requires DistinctIds(ranked)
    requires i < k < |ranked| && GreedyInv(ranked, av, i, g)
    requires ranked[i].teamId !in g.used && Available(ranked, av, i, k, g.used)
    ensures var t1 := ranked[i].teamId;
            var t2 := ranked[k].teamId;
            GreedyInv(ranked, av, i + 1, Step(g, t1, t2, LeastOf(Shared(av, t1, t2))))
  {
    var t1 := ranked[i].teamId;
    var t2 := ranked[k].teamId;
    var p := Pair(t1, t2, LeastOf(Shared(av, t1, t2)));
    var g' := Step(g, t1, t2, p.day);
    assert TeamIds(ranked)[i] != TeamIds(ranked)[k];
    PairIdsSnoc(g.pairs, p);
    NoDupSnoc2(PairIds(g.pairs), t1, t2);
    assert PairRanked(ranked, p);
    forall n | 0 <= n < |g'.pairs|
      ensures PairRanked(ranked, g'.pairs[n]) && OnFirstCommonDay(av, g'.pairs[n])
    {
      if n < |g.pairs| {
        assert g'.pairs[n] == g.pairs[n];
      }
    }
  }

  /** The turn of position i finds no available partner: it stays unpaired
      and shares no day with a later unused team. */
  lemma GreedyStepAlone(ranked: seq<Team>, av: Availability, i: nat, g: Greedy)
    requires i < |ranked| && GreedyInv(ranked, av, i, g)
    requires forall q :: i + 1 <= q < |ranked| ==> !Available(ranked, av, i, q, g.used)
    ensures GreedyInv(ranked, av, i + 1, g)
  {
    forall p, q | 0 <= p < i + 1 && p < q < |ranked| && ranked[p].teamId !in g.used && ranked[q].teamId !in g.used
      ensures Shared(av, ranked[p].teamId, ranked[q].teamId) == {}
    {
      if p == i {
        assert !Available(ranked, av, i, q, g.used);
      }
    }
  }


  lemma {:induction false} GreedyFromInv(ranked: seq<Team>, av: Availability, i: nat, g: Greedy)
    requires DistinctIds(ranked)
    requires i <= |ranked| && GreedyInv(ranked, av, i, g)
    ensures GreedyInv(ranked, av, |ranked|, GreedyFrom(ranked, av, i, g))
    decreases |ranked| - i
  {
    if i < |ranked| {
      var next := NextGreedy(ranked, av, i, g);
      GreedyStep(ranked, av, i, g);
      GreedyFromInv(ranked, av, i + 1, next);
      assert GreedyFrom(ranked, av, i, g) == GreedyFrom(ranked, av, i + 1, next);
    } else {
      assert GreedyFrom(ranked, av, i, g) == g;
    }
  }

  /** When the ranked teams have distinct ids, the greedy pass pairs a team
      with a lower-ranked one on their first common day, never uses a team
      twice, records exactly the paired teams as used, and leaves no two
      unpaired teams that share a day. */
  lemma GreedyPairingValid(ranked: seq<Team>, av: Availability)
    requires DistinctIds(ranked)
    ensures var g := GreedyPairing(ranked, av);
            && (forall n :: 0 <= n < |g.pairs| ==> PairRanked(ranked, g.pairs[n]) && OnFirstCommonDay(av, g.pairs[n]))
            && g.used == Elems(PairIds(g.pairs))
            && NoDup(PairIds(g.pairs))
            && (forall p, q :: 0 <= p < q < |ranked| && ranked[p].teamId !in g.used && ranked[q].teamId !in g.used
                  ==> Shared(av, ranked[p].teamId, ranked[q].teamId) == {})
  {
    assert Elems(PairIds([])) == {};
    GreedyFromInv(ranked, av, 0, Greedy([], {}));
  }

  // ---------------------------------------------------------------------
  // The outcome of create_match_pairs

  /** The greedy pass over the ranked teams of the tournament. */
  ghost function GreedyOf(teams: seq<Team>, av: Availability): Greedy
  {
    GreedyPairing(SortTeams(teams), av)
  }

  /** create_match_pairs, with the fallback loop evaluated away: it fails
      exactly when two or more teams are left over by the greedy pass. */
  ghost function Outcome(teams: seq<Team>, av: Availability): Option<seq<Pair>>
  {
    var g := GreedyOf(teams, av);
    if |Unpaired(teams, g.used)| >= 2 then None else Some(g.pairs)
  }

  /** A shuffle keeps the elements of every list. */
  ghost predicate Permutes(shuffle: seq<Team> -> seq<Team>)
  {
    forall s :: multiset(shuffle(s)) == multiset(s)
  }

  lemma {:induction false} UnpairedIds(teams: seq<Team>, used: set<Id>)
    requires DistinctIds(teams)
    ensures DistinctIds(Unpaired(teams, used))
  {
    if teams != [] {
      DistinctTail(teams);
      UnpairedIds(teams[1..], used);
      var rest := Unpaired(teams[1..], used);
      if teams[0].teamId !in used {
        assert Unpaired(teams, used) == [teams[0]] + rest;
        DistinctCons(teams[0], rest);
      } else {
        assert Unpaired(teams, used) == rest;
      }
    }
  }

  /** Two teams the greedy pass leaves over never share a day. */
  lemma LeftoversApart(teams: seq<Team>, av: Availability, x: Team, y: Team)
    requires DistinctIds(teams)
    requires x in teams && y in teams && x.teamId != y.teamId
    requires x.teamId !in GreedyOf(teams, av).used && y.teamId !in GreedyOf(teams, av).used
    ensures Shared(av, x.teamId, y.teamId) == {}
  {
    var ranked := SortTeams(teams);
    RankedDistinct(teams);
    var p := IndexIn(ranked, x);
    var q := IndexIn(ranked, y);
    if p < q {
      RankedLeftoversApart(ranked, av, p, q);
    } else {
      RankedLeftoversApart(ranked, av, q, p);
      SharedSymmetric(av, x.teamId, y.teamId);
    }
  }

  /** Ranking keeps the ids distinct. */
  lemma RankedDistinct(teams: seq<Team>)
    requires DistinctIds(teams)
    ensures DistinctIds(SortTeams(teams))
  {
    TeamIdsPermutation(teams, SortTeams(teams));
    NoDupPermutation(TeamIds(teams), TeamIds(SortTeams(teams)));
  }

  /** Where a team of `teams` sits in a permutation of it. */
  lemma IndexIn(ranked: seq<Team>, x: Team) returns (p: nat)
    requires x in multiset(ranked)
    ensures p < |ranked| && ranked[p] == x
  {
    p :| 0 <= p < |ranked| && ranked[p] == x;
  }

  lemma RankedLeftoversApart(ranked: seq<Team>, av: Availability, p: nat, q: nat)
    requires DistinctIds(ranked) && p < q < |ranked|
    requires ranked[p].teamId !in GreedyPairing(ranked, av).used && ranked[q].teamId !in GreedyPairing(ranked, av).used
    ensures Shared(av, ranked[p].teamId, ranked[q].teamId) == {}
  {
    GreedyPairingValid(ranked, av);
  }

  /** The teams left over by `used` pairwise share no day. */
  ghost predicate LeftoversApartBy(teams: seq<Team>, av: Availability, used: set<Id>)
  {
    forall x, y :: x in teams && y in teams && x.teamId != y.teamId && x.teamId !in used && y.teamId !in used
      ==> Shared(av, x.teamId, y.teamId) == {}
  }

  /** The last of the shuffled leftovers finds nobody to share a day with. */
  lemma LastLeftoverAlone(teams: seq<Team>, av: Availability, rem: seq<Team>)
    requires DistinctIds(teams)
    requires multiset(rem) == multiset(Unpaired(teams, GreedyOf(teams, av).used))
    requires |rem| >= 2
    ensures FirstSharing(rem[..|rem| - 1], av, rem[|rem| - 1].teamId, 0) == None
  {
    var used := GreedyOf(teams, av).used;
    forall x, y | x in teams && y in teams && x.teamId != y.teamId && x.teamId !in used && y.teamId !in used
      ensures Shared(av, x.teamId, y.teamId) == {}
    {
      LeftoversApart(teams, av, x, y);
    }
    LastAloneAmong(teams, av, used, rem);
  }

  lemma LastAloneAmong(teams: seq<Team>, av: Availability, used: set<Id>, rem: seq<Team>)
    requires DistinctIds(teams) && LeftoversApartBy(teams, av, used)
    requires multiset(rem) == multiset(Unpaired(teams, used))
    requires |rem| >= 2
    ensures FirstSharing(rem[..|rem| - 1], av, rem[|rem| - 1].teamId, 0) == None
  {
    LeftoversDistinct(teams, used, rem);
    var u := Unpaired(teams, used);
    var t1 := rem[|rem| - 1];
    var rest := rem[..|rem| - 1];
    forall q | 0 <= q < |rest| ensures Shared(av, t1.teamId, rest[q].teamId) == {} {
      assert TeamIds(rem)[q] != TeamIds(rem)[|rem| - 1];
      assert rem[q] in multiset(u) && t1 in multiset(u);
    }
    NobodySharing(rest, av, t1.teamId);
  }

  lemma NobodySharing(rest: seq<Team>, av: Availability, t: Id)
    requires forall q :: 0 <= q < |rest| ==> Shared(av, t, rest[q].teamId) == {}
    ensures FirstSharing(rest, av, t, 0) == None
  {
  }

  /** Any order of the leftovers has distinct ids. */
  lemma LeftoversDistinct(teams: seq<Team>, used: set<Id>, rem: seq<Team>)
    requires DistinctIds(teams)
    requires multiset(rem) == multiset(Unpaired(teams, used))
    ensures DistinctIds(rem)
  {
    var u := Unpaired(teams, used);
    UnpairedIds(teams, used);
    TeamIdsPermutation(u, rem);
    NoDupPermutation(TeamIds(u), TeamIds(rem));
  }

  /** With distinct team ids and a true shuffle, the fallback never pairs
      anybody: the result does not depend on the shuffle. */
  lemma FallbackNeverPairs(teams: seq<Team>, av: Availability, shuffle: seq<Team> -> seq<Team>)
    requires DistinctIds(teams) && Permutes(shuffle)
    ensures PairsOf(teams, av, shuffle) == Outcome(teams, av)
  {
    var g := GreedyOf(teams, av);
    var u := Unpaired(teams, g.used);
    var rem := shuffle(u);
    assert PairsOf(teams, av, shuffle) == FallbackFrom(rem, av, g.pairs);
    assert multiset(rem) == multiset(u);
    assert |rem| == |u| by {
      assert |rem| == |multiset(rem)| == |multiset(u)| == |u|;
    }
    if |rem| >= 2 {
      LastLeftoverAlone(teams, av, rem);
      FallbackGivesUp(rem, av, g.pairs);
    }
  }

  /** With two or more teams left and the last one sharing a day with
      nobody, the fallback gives up. */
  lemma FallbackGivesUp(rem: seq<Team>, av: Availability, pairs: seq<Pair>)
    requires |rem| >= 2
    requires FirstSharing(rem[..|rem| - 1], av, rem[|rem| - 1].teamId, 0) == None
    ensures FallbackFrom(rem, av, pairs) == None
  {
  }

  lemma {:induction false} PairIdsFromRanked(ranked: seq<Team>, pairs: seq<Pair>)
    requires forall n :: 0 <= n < |pairs| ==> PairRanked(ranked, pairs[n])
    ensures forall x :: x in PairIds(pairs) ==> x in TeamIds(ranked)
  {
    if pairs != [] {
      var init := pairs[..|pairs| - 1];
      var p := pairs[|pairs| - 1];
      assert forall n :: 0 <= n < |init| ==> init[n] == pairs[n];
      PairIdsFromRanked(ranked, init);
      assert PairRanked(ranked, p);
      var a, b :| 0 <= a < b < |ranked| && ranked[a].teamId == p.teamA && ranked[b].teamId == p.teamB;
      assert TeamIds(ranked)[a] == p.teamA && TeamIds(ranked)[b] == p.teamB;
    }
  }

  lemma UnpairedSameOn(teams: seq<Team>, s: set<Id>, s': set<Id>)
    requires forall t :: t in teams ==> (t.teamId in s <==> t.teamId in s')
    ensures Unpaired(teams, s) == Unpaired(teams, s')
  {
    if teams != [] {
      UnpairedSameOn(teams[1..], s, s');
    }
  }

  /** With distinct ids, removing the teams whose ids are in `s` removes
      exactly |s| teams. */
  lemma {:induction false} UnpairedCount(teams: seq<Team>, s: set<Id>)
    requires DistinctIds(teams) && s <= Elems(TeamIds(teams))
    ensures |Unpaired(teams, s)| + |s| == |teams|
  {
    if teams == [] {
      assert s == {};
    } else {
      var t := teams[0];
      var rest := teams[1..];
      DistinctTail(teams);
      var s' := s - {t.teamId};
      assert s' <= Elems(TeamIds(rest)) by {
        forall x | x in s' ensures x in TeamIds(rest) {
          var m :| 0 <= m < |teams| && TeamIds(teams)[m] == x;
          assert m > 0 && TeamIds(rest)[m - 1] == x;
        }
      }
      UnpairedCount(rest, s');
      forall u | u in rest ensures (u.teamId in s <==> u.teamId in s') {
      }
      UnpairedSameOn(rest, s, s');
      if t.teamId in s {
        assert |s| == |s'| + 1;
      } else {
        assert s' == s;
      }
    }
  }

  /** The greedy pass uses 2·|pairs| distinct ids of the tournament's teams
      and leaves the others unpaired. */
  lemma GreedyCounts(teams: seq<Team>, av: Availability)
    requires DistinctIds(teams)
    ensures var g := GreedyOf(teams, av);
            && g.used == Elems(PairIds(g.pairs))
            && NoDup(PairIds(g.pairs))
            && g.used <= Elems(TeamIds(teams))
            && |Unpaired(teams, g.used)| + 2 * |g.pairs| == |teams|
  {
    var ranked := SortTeams(teams);
    var g := GreedyOf(teams, av);
    TeamIdsPermutation(teams, ranked);
    NoDupPermutation(TeamIds(teams), TeamIds(ranked));
    GreedyPairingValid(ranked, av);
    PairIdsFromRanked(ranked, g.pairs);
    assert forall x :: x in TeamIds(ranked) ==> x in TeamIds(teams) by {
      assert forall x :: x in TeamIds(ranked) <==> x in multiset(TeamIds(ranked));
      assert forall x :: x in TeamIds(teams) <==> x in multiset(TeamIds(teams));
    }
    NoDupCardinality(PairIds(g.pairs));
    PairIdsLength(g.pairs);
    UnpairedCount(teams, g.used);
  }

  /** The round is accepted (a result whose pairs cover every team) exactly
      when the greedy pass alone pairs every team; then every team of the
      tournament plays in exactly one pair, and an odd number of teams is
      never accepted. */
  lemma RoundAccepted(teams: seq<Team>, av: Availability, shuffle: seq<Team> -> seq<Team>)
    requires DistinctIds(teams) && Permutes(shuffle)
    ensures var g := GreedyOf(teams, av);
            var r := PairsOf(teams, av, shuffle);
            && ((r.Some? && |r.value| * 2 == |teams|) <==> Unpaired(teams, g.used) == [])
            && (Unpaired(teams, g.used) == [] ==>
                  r == Some(g.pairs) && NoDup(PairIds(g.pairs)) && Elems(PairIds(g.pairs)) == Elems(TeamIds(teams)))
            && (|teams| % 2 == 1 ==> Unpaired(teams, g.used) != [])
  {
    var g := GreedyOf(teams, av);
    FallbackNeverPairs(teams, av, shuffle);
    GreedyCounts(teams, av);
    AcceptedCore(teams, g, PairsOf(teams, av, shuffle));
  }

  /** The counting argument behind RoundAccepted, for any result of the
      shape Outcome gives. */
  lemma AcceptedCore(teams: seq<Team>, g: Greedy, r: Option<seq<Pair>>)
    requires r == if |Unpaired(teams, g.used)| >= 2 then None else Some(g.pairs)
    requires g.used == Elems(PairIds(g.pairs)) && g.used <= Elems(TeamIds(teams))
    requires |Unpaired(teams, g.used)| + 2 * |g.pairs| == |teams|
    ensures (r.Some? && |r.value| * 2 == |teams|) <==> Unpaired(teams, g.used) == []
    ensures Unpaired(teams, g.used) == [] ==> r == Some(g.pairs) && Elems(PairIds(g.pairs)) == Elems(TeamIds(teams))
    ensures |teams| % 2 == 1 ==> Unpaired(teams, g.used) != []
  {
    NoneLeftAllUsed(teams, g.used);
  }

  lemma NoneLeftAllUsed(teams: seq<Team>, used: set<Id>)
    ensures Unpaired(teams, used) == [] ==> Elems(TeamIds(teams)) <= used
  {
    forall m | 0 <= m < |teams| ensures teams[m] in Unpaired(teams, used) || TeamIds(teams)[m] in used {
    }
  }

  lemma {:induction false} PairIdsLength(pairs: seq<Pair>)
    ensures |PairIds(pairs)| == 2 * |pairs|
  {
    if pairs != [] {
      PairIdsLength(pairs[..|pairs| - 1]);
    }
  }

  // ---------------------------------------------------------------------
  // The /make-match route

  /** The body of the match-creation request posted for one pair. */
  datatype MatchRequest = MatchRequest(tournamentId: Value, teamAId: Id, teamBId: Id, scheduledTime: string)

  function RequestFor(tid: Value, p: Pair): MatchRequest
  {
    MatchRequest(tid, p.teamA, p.teamB, p.day)
  }

  datatype MakeMatchOutcome =
    | InvalidRoundNumber
    | MissingTournamentId
    | ScheduleFetchFailed(status: int)
    | ScheduleServiceError
    | NoScheduleForRound
    | TournamentFetchFailed
    | InternalError
    | Unpairable
    | MatchCreateFailed(pair: Pair)
    | MatchesCreated(count: nat)
  {
    function Status(): int
    {
      match this
      case InvalidRoundNumber => 400
      case MissingTournamentId => 400
      case ScheduleFetchFailed(status) => status
      case ScheduleServiceError => 500
      case NoScheduleForRound => 404
      case TournamentFetchFailed => 500
      case InternalError => 500
      case Unpairable => 400
      case MatchCreateFailed(_) => 500
      case MatchesCreated(_) => 201
    }
  }

  /** A schedule document of this round (its roundNumber parses to `round`)
      and this tournament; documents whose roundNumber does not parse are
      skipped. */
  predicate IsRoundDocFor(doc: ScheduleDoc, round: int, tid: Value)
  {
    ToInt(doc.roundNumber) == Some(round) && ForTournament(doc, tid)
  }

  /** docs[k] is the first document of the round. */
  predicate FirstRoundDoc(docs: seq<ScheduleDoc>, k: nat, round: int, tid: Value)
  {
    k < |docs| && IsRoundDocFor(docs[k], round, tid) && forall m :: 0 <= m < k ==> !IsRoundDocFor(docs[m], round, tid)
  }

  method FindRoundSchedule(docs: seq<ScheduleDoc>, round: int, tid: Value) returns (k: Option<nat>)
    ensures k.None? <==> forall m :: 0 <= m < |docs| ==> !IsRoundDocFor(docs[m], round, tid)
    ensures k.Some? ==> FirstRoundDoc(docs, k.value, round, tid)
  {
    for m := 0 to |docs|
      invariant forall n :: 0 <= n < m ==> !IsRoundDocFor(docs[n], round, tid)
    {
      var sRound := ToInt(docs[m].roundNumber);
      if sRound.None? {
        continue;
      }
      if sRound.value == round && Get(docs[m].tournament, "tournamentId") == tid {
        return Some(m);
      }
    }
    return None;
  }

  /** Every pair's match request was answered with 201. */
  predicate AllPosted(tid: Value, pairs: seq<Pair>, post: MatchRequest -> int)
  {
    forall n :: 0 <= n < |pairs| ==> post(RequestFor(tid, pairs[n])) == 201
  }

  /** The posting loop: one match-creation request per pair, in order,
      stopping at the first that is not answered with 201. `post` gives the
      match service's answer to a request. */
  method PostMatches(tid: Value, pairs: seq<Pair>, post: MatchRequest -> int) returns (failed: Option<nat>)
    ensures failed.None? <==> AllPosted(tid, pairs, post)
    ensures failed.Some? ==>
              && failed.value < |pairs|
              && post(RequestFor(tid, pairs[failed.value])) != 201
              && AllPosted(tid, pairs[..failed.value], post)
  {
    for n := 0 to |pairs|
      invariant AllPosted(tid, pairs[..n], post)
    {
      if post(RequestFor(tid, pairs[n])) != 201 {
        return Some(n);
      }
      assert pairs[..n + 1][n] == pairs[n];
    }
    assert pairs[..|pairs|] == pairs;
    return None;
  }

  /** Both fields are usable: roundNumber parses and tournamentId is truthy. */
  predicate RequestValid(data: Object)
  {
    ToInt(Get(data, "roundNumber")).Some? && Truthy(Get(data, "tournamentId"))
  }

  /** The pairing produced for the selected schedule is accepted: it exists
      and pairs off every team. */
  ghost predicate Accepted(teams: seq<Team>, av: Availability, shuffle: seq<Team> -> seq<Team>)
  {
    var r := PairsOf(teams, av, shuffle);
    r.Some? && |r.value| * 2 == |teams|
  }

  /** make_match. `schedules` is the schedule service's answer for the
      tournament, `tournament` the tournament service's answer (its teams),
      `shuffle` stands for random.shuffle and `post` for the match service. */
  method MakeMatchRoute(data: Object, schedules: Fetch<seq<ScheduleDoc>>, tournament: Fetch<seq<Team>>,
                        shuffle: seq<Team> -> seq<Team>, post: MatchRequest -> int)
    returns (r: MakeMatchOutcome)
    requires schedules.Reply? ==> forall k :: 0 <= k < |schedules.body| ==> schedules.body[k].teamAvailableDays.Wf()
    ensures r.InvalidRoundNumber? <==> ToInt(Get(data, "roundNumber")).None?
    ensures r.MissingTournamentId? <==> ToInt(Get(data, "roundNumber")).Some? && !Truthy(Get(data, "tournamentId"))
    ensures r.ScheduleServiceError? <==> RequestValid(data) && schedules.ConnectionError?
    ensures r.ScheduleFetchFailed? <==> RequestValid(data) && schedules.Reply? && schedules.status != 200
    ensures r.ScheduleFetchFailed? ==> r.status == schedules.status
    ensures r.NoScheduleForRound? <==>
              RequestValid(data) && schedules.Reply? && schedules.status == 200 &&
              forall m :: 0 <= m < |schedules.body| ==>
                !IsRoundDocFor(schedules.body[m], ToInt(Get(data, "roundNumber")).value, Get(data, "tournamentId"))
    ensures r.TournamentFetchFailed? || r.InternalError? || r.Unpairable? || r.MatchCreateFailed? || r.MatchesCreated? ==>
              && RequestValid(data) && schedules.Reply? && schedules.status == 200
              && exists k: nat :: FirstRoundDoc(schedules.body, k, ToInt(Get(data, "roundNumber")).value, Get(data, "tournamentId"))
    ensures r.InternalError? ==> tournament.ConnectionError?
    ensures r.TournamentFetchFailed? ==> tournament.Reply? && tournament.status != 200
    ensures r.Unpairable? || r.MatchCreateFailed? || r.MatchesCreated? ==> tournament.Reply? && tournament.status == 200
    ensures r.Unpairable? || r.MatchCreateFailed? || r.MatchesCreated? ==>
              var round := ToInt(Get(data, "roundNumber")).value;
              exists k: nat :: FirstRoundDoc(schedules.body, k, round, Get(data, "tournamentId")) &&
                (r.Unpairable? <==> !Accepted(tournament.body, schedules.body[k].teamAvailableDays, shuffle))
    ensures r.MatchesCreated? ==>
              var round := ToInt(Get(data, "roundNumber")).value;
              exists k: nat :: FirstRoundDoc(schedules.body, k, round, Get(data, "tournamentId")) &&
                var ps := PairsOf(tournament.body, schedules.body[k].teamAvailableDays, shuffle);
                ps.Some? && r.count == |ps.value| && AllPosted(Get(data, "tournamentId"), ps.value, post)
    ensures r.MatchCreateFailed? ==>
              var round := ToInt(Get(data, "roundNumber")).value;
              exists k: nat :: FirstRoundDoc(schedules.body, k, round, Get(data, "tournamentId")) &&
                var ps := PairsOf(tournament.body, schedules.body[k].teamAvailableDays, shuffle);
                ps.Some? && !AllPosted(Get(data, "tournamentId"), ps.value, post) &&
                exists n: nat :: n < |ps.value| && r.pair == ps.value[n] &&
                  post(RequestFor(Get(data, "tournamentId"), ps.value[n])) != 201 &&
                  AllPosted(Get(data, "tournamentId"), ps.value[..n], post)
  {
    var tid := Get(data, "tournamentId");
    var roundNumber := ToInt(Get(data, "roundNumber"));
    if roundNumber.None? {
      return InvalidRoundNumber;
    }
    var round := roundNumber.value;
    if !Truthy(tid) {
      return MissingTournamentId;
    }
    if schedules.ConnectionError? {
      return ScheduleServiceError;
    }
    if schedules.status != 200 {
      return ScheduleFetchFailed(schedules.status);
    }
    var docs := schedules.body;
    var k := FindRoundSchedule(docs, round, tid);
    if k.None? {
      return NoScheduleForRound;
    }
    var availability := docs[k.value].teamAvailableDays;
    if tournament.ConnectionError? {
      return InternalError;
    }
    if tournament.status != 200 {
      return TournamentFetchFailed;
    }
    var teams := tournament.body;
    var pairs := CreateMatchPairs(teams, availability, shuffle);
    if pairs.None? || |pairs.value| * 2 != |teams| {
      assert !Accepted(teams, availability, shuffle);
      return Unpairable;
    }
    assert Accepted(teams, availability, shuffle);
    var failed := PostMatches(tid, pairs.value, post);
    if failed.Some? {
      return MatchCreateFailed(pairs.value[failed.value]);
    }
    r := MatchesCreated(|pairs.value|);
  }
}
