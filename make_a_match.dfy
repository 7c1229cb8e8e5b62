/** The make-a-match composite: for every day of a round's availability,
    pair up to four of the teams free that day by their win-loss
    difference and create their matches. */
module MakeAMatch {
  import opened Wrappers
  import opened Json
  import opened StableSort
  import opened Teams
  import opened ScheduleService
  import opened MakeMatch
  import opened Pairs
  import opened Http

  // ---------------------------------------------------------------------
  // pair_teams_by_wl

  /** A team's wins and losses as the tournament reports them. */
  datatype WinLoss = WinLoss(wins: int, losses: int)

  type WlMap = map<Id, WinLoss>

  /** wins - losses, with 0 for a team the map does not know. */
  function WlDiff(wl: WlMap, t: Id): int
  {
    if t in wl then wl[t].wins - wl[t].losses else 0
  }

  function WlKey(wl: WlMap): Id -> Rank
  {
    t => Rank(WlDiff(wl, t), 0)
  }

  /** The teams by descending win-loss difference, best first;
      teams with equal differences keep their listed order. */
  function SortByWl(teams: seq<Id>, wl: WlMap): (r: seq<Id>)
    ensures multiset(r) == multiset(teams)
    ensures forall i, j :: 0 <= i < j < |r| ==> WlDiff(wl, r[i]) >= WlDiff(wl, r[j])
    ensures forall k :: WithRank(r, WlKey(wl), k) == WithRank(teams, WlKey(wl), k)
  {
    var r := Sort(teams, WlKey(wl));
    assert forall i, j :: 0 <= i < j < |r| ==> AtLeast(WlKey(wl)(r[i]), WlKey(wl)(r[j]));
    r
  }

  /** The loop of pair_teams_by_wl. */
  method PairTeamsByWl(teams: seq<Id>, wl: WlMap) returns (pairs: seq<(Id, Id)>)
    ensures pairs == PairUp(SortByWl(teams, wl))
  {
    var sorted := SortByWl(teams, wl);
    pairs := [];
    var i := 0;
    while i < |sorted| - 1
      invariant 0 <= i && i % 2 == 0 && (i <= |sorted| || |sorted| == 0)
      invariant i <= |sorted|
      invariant pairs == PairUp(sorted[..i])
      decreases |sorted| - i
    {
      PairUpSnoc(sorted[..i], sorted[i], sorted[i + 1]);
      assert sorted[..i + 2] == sorted[..i] + [sorted[i], sorted[i + 1]];
      pairs := pairs + [(sorted[i], sorted[i + 1])];
      i := i + 2;
    }
    assert PairUp(sorted[..i]) == PairUp(sorted) by {
      PairUpEvenPrefix(sorted, i);
    }
  }

  /** Each team is in at most one pair, every paired team comes from the
      input, |teams| / 2 pairs are made, and with an odd count the one left
      out is the lowest-ranked team. */
  lemma PairTeamsByWlValid(teams: seq<Id>, wl: WlMap)
    requires NoDup(teams)
    ensures var sorted := SortByWl(teams, wl);
            var pairs := PairUp(sorted);
            && |pairs| == |teams| / 2
            && NoDup(Flatten(pairs))
            && (forall t :: t in Flatten(pairs) ==> t in teams)
            && (|teams| % 2 == 1 ==> Flatten(pairs) + [sorted[|teams| - 1]] == sorted)
  {
    var sorted := SortByWl(teams, wl);
    assert |sorted| == |multiset(sorted)| == |multiset(teams)| == |teams|;
    NoDupPermutation(teams, sorted);
    PairUpValid(sorted);
    forall t | t in sorted ensures t in teams {
      assert t in multiset(sorted);
    }
  }

  /** With no win-loss data every difference is 0 and the teams are paired in
      their listed order. */
  lemma PairTeamsWithoutWl(teams: seq<Id>)
    ensures PairUp(SortByWl(teams, map[])) == PairUp(teams)
  {
    SortEqualKeys(teams, WlKey(map[]));
  }

  // ---------------------------------------------------------------------
  // The win-loss map built from the tournament's teams

  /** No later team has the same id as teams[k]. */
  predicate LastWithId(teams: seq<Team>, k: nat)
    requires k < |teams|
  {
    forall m :: k < m < |teams| ==> teams[m].teamId != teams[k].teamId
  }

  /** Every team id maps to the wins and losses of the last team listed
      with that id, and nothing else is mapped. */
  ghost predicate WlOf(wl: WlMap, teams: seq<Team>)
  {
    && (forall t :: t in wl <==> t in TeamIds(teams))
    && (forall k :: 0 <= k < |teams| && LastWithId(teams, k) ==>
          teams[k].teamId in wl && wl[teams[k].teamId] == WinLoss(teams[k].stats.wins, teams[k].stats.losses))
  }

  /** The loop of make_matches that builds the win-loss map. */
  method BuildWlMap(teams: seq<Team>) returns (wl: WlMap)
    ensures WlOf(wl, teams)
  {
    wl := map[];
    for n := 0 to |teams|
      invariant WlOf(wl, teams[..n])
    {
      var t := teams[n];
      WlOfNext(wl, teams, n);
      wl := wl[t.teamId := WinLoss(t.stats.wins, t.stats.losses)];
    }
    assert teams[..|teams|] == teams;
  }

  lemma WlOfNext(wl: WlMap, teams: seq<Team>, n: nat)
    requires n < |teams| && WlOf(wl, teams[..n])
    ensures WlOf(wl[teams[n].teamId := WinLoss(teams[n].stats.wins, teams[n].stats.losses)], teams[..n + 1])
  {
    assert teams[..n + 1] == teams[..n] + [teams[n]];
    WlOfSnoc(wl, teams[..n], teams[n]);
  }

  /** Entering one more team keeps the map in step with the teams listed. */
  lemma WlOfSnoc(wl: WlMap, teams: seq<Team>, t: Team)
    requires WlOf(wl, teams)
    ensures WlOf(wl[t.teamId := WinLoss(t.stats.wins, t.stats.losses)], teams + [t])
  {
    var wl' := wl[t.teamId := WinLoss(t.stats.wins, t.stats.losses)];
    var more := teams + [t];
    assert TeamIds(more) == TeamIds(teams) + [t.teamId] by {
      TeamIdsConcat(teams, [t]);
    }
    forall k | 0 <= k < |more| && LastWithId(more, k)
      ensures more[k].teamId in wl' && wl'[more[k].teamId] == WinLoss(more[k].stats.wins, more[k].stats.losses)
    {
      if k < |teams| {
        LastWithIdOfSnoc(teams, t, k);
      }
    }
  }

  /** A team that is the last with its id once one more team is listed was
      already the last with it, and the new team has another id. */
  lemma LastWithIdOfSnoc(teams: seq<Team>, t: Team, k: nat)
    requires k < |teams| && LastWithId(teams + [t], k)
    ensures LastWithId(teams, k) && (teams + [t])[k] == teams[k] && t.teamId != teams[k].teamId
  {
    var more := teams + [t];
    assert more[|teams|] == t;
    forall m | k < m < |teams| ensures teams[m].teamId != teams[k].teamId {
      assert more[m] == teams[m];
    }
  }

  /** The win-loss map a tournament-service answer yields: empty when the
      call fails or does not answer 200. */
  method WlMapOf(tournament: Fetch<seq<Team>>) returns (wl: WlMap)
    ensures !(tournament.Reply? && tournament.status == 200) ==> wl == map[]
    ensures tournament.Reply? && tournament.status == 200 ==> WlOf(wl, tournament.body)
  {
    if tournament.ConnectionError? || tournament.status != 200 {
      return map[];
    }
    wl := BuildWlMap(tournament.body);
  }

  // ---------------------------------------------------------------------
  // The matches proposed for each day

  function Min(a: int, b: int): int
  {
    if a <= b then a else b
  }

  /** The creation requests for pairs playing on `day`. */
  function RequestsFor(tid: Value, day: string, pairs: seq<(Id, Id)>): (r: seq<MatchRequest>)
    ensures |r| == |pairs|
    ensures forall k :: 0 <= k < |pairs| ==> r[k] == MatchRequest(tid, pairs[k].0, pairs[k].1, day)
  {
    seq(|pairs|, k requires 0 <= k < |pairs| => MatchRequest(tid, pairs[k].0, pairs[k].1, day))
  }

  /** The requests for one day: nothing when fewer than two teams are free,
      otherwise the pairs of the first four listed teams. */
  function DayRequests(tid: Value, day: string, dayTeams: seq<Id>, wl: WlMap): seq<MatchRequest>
  {
    if |dayTeams| < 2 then []
    else RequestsFor(tid, day, PairUp(SortByWl(dayTeams[..Min(4, |dayTeams|)], wl)))
  }

  /** At most two matches a day, one when two or three teams are free, each
      between two of the first four teams listed for the day, on that day. */
  lemma DayRequestsValid(tid: Value, day: string, dayTeams: seq<Id>, wl: WlMap)
    ensures var rs := DayRequests(tid, day, dayTeams, wl);
            && |rs| == (if |dayTeams| < 2 then 0 else Min(4, |dayTeams|) / 2)
            && forall k :: 0 <= k < |rs| ==>
                 && rs[k].tournamentId == tid && rs[k].scheduledTime == day
                 && rs[k].teamAId in dayTeams[..Min(4, |dayTeams|)]
                 && rs[k].teamBId in dayTeams[..Min(4, |dayTeams|)]
  {
    if |dayTeams| >= 2 {
      var first := dayTeams[..Min(4, |dayTeams|)];
      var sorted := SortByWl(first, wl);
      forall x | x in sorted ensures x in first {
        assert x in multiset(sorted);
      }
    }
  }

  /** The teams listed for a day. */
  function DayTeams(av: Availability, d: string): seq<Id>
  {
    if d in av.lists then av.lists[d] else []
  }

  /** The requests for the days `days` of the availability, in that order. */
  function Proposals(av: Availability, days: seq<string>, wl: WlMap, tid: Value): seq<MatchRequest>
  {
    if days == [] then []
    else
      var day := days[|days| - 1];
      Proposals(av, days[..|days| - 1], wl, tid) + DayRequests(tid, day, DayTeams(av, day), wl)
  }

  /** Days are paired independently: two teams free on two days are
      proposed a match on each of them. */
  lemma PairedOnEveryDay(a: Id, b: Id, d1: string, d2: string, tid: Value)
    requires d1 != d2
    ensures var av := Availability([d1, d2], map[d1 := [a, b], d2 := [a, b]]);
            Proposals(av, av.order, map[], tid) == [MatchRequest(tid, a, b, d1), MatchRequest(tid, a, b, d2)]
  {
    var av := Availability([d1, d2], map[d1 := [a, b], d2 := [a, b]]);
    PairTeamsWithoutWl([a, b]);
    assert [a, b][..Min(4, 2)] == [a, b];
    assert PairUp([a, b]) == [(a, b)];
    assert DayRequests(tid, d1, [a, b], map[]) == [MatchRequest(tid, a, b, d1)];
    assert DayRequests(tid, d2, [a, b], map[]) == [MatchRequest(tid, a, b, d2)];
    assert DayTeams(av, d1) == [a, b] && DayTeams(av, d2) == [a, b];
    assert av.order[..1] == [d1];
    assert [d1][..0] == [];
    assert Proposals(av, [d1], map[], tid) == [MatchRequest(tid, a, b, d1)];
  }

  /** The requests answered with 201, in order. */
  function Created(reqs: seq<MatchRequest>, post: MatchRequest -> int): (r: seq<MatchRequest>)
    ensures forall q :: q in r <==> q in reqs && post(q) == 201
  {
    if reqs == [] then []
    else
      assert forall q :: q in reqs <==> q == reqs[0] || q in reqs[1..];
      (if post(reqs[0]) == 201 then [reqs[0]] else []) + Created(reqs[1..], post)
  }

  /** Every proposed match is on a day of the availability, between two
      teams listed for that day. */
  lemma {:induction false} ProposalsValid(av: Availability, days: seq<string>, wl: WlMap, tid: Value)
    ensures forall q :: q in Proposals(av, days, wl, tid) ==>
              q.scheduledTime in days && q.tournamentId == tid &&
              q.scheduledTime in av.lists &&
              q.teamAId in av.lists[q.scheduledTime] && q.teamBId in av.lists[q.scheduledTime]
  {
    if days != [] {
      var day := days[|days| - 1];
      ProposalsValid(av, days[..|days| - 1], wl, tid);
      DayRequestsValid(tid, day, DayTeams(av, day), wl);
      var rs := DayRequests(tid, day, DayTeams(av, day), wl);
      forall q | q in rs
        ensures q.scheduledTime == day && q.tournamentId == tid && day in av.lists
        ensures q.teamAId in av.lists[day] && q.teamBId in av.lists[day]
      {
        var k :| 0 <= k < |rs| && rs[k] == q;
        var n := Min(4, |DayTeams(av, day)|);
        assert forall x :: x in DayTeams(av, day)[..n] ==> x in DayTeams(av, day);
      }
    }
  }

  /** The day loop of make_matches: each day in the dictionary's order, its
      requests posted one by one; a request answered with 201 is a created
      match, any other answer is logged and skipped. */
  method CreateDayMatches(av: Availability, wl: WlMap, tid: Value, post: MatchRequest -> int)
    returns (created: seq<MatchRequest>)
    requires av.Wf()
    ensures created == Created(Proposals(av, av.order, wl, tid), post)
  {
    created := [];
    for n := 0 to |av.order|
      invariant created == Created(Proposals(av, av.order[..n], wl, tid), post)
    {
      var day := av.order[n];
      var dayTeams := av.lists[day];
      assert dayTeams == DayTeams(av, day);
      var made := PostDay(tid, day, dayTeams, wl, post);
      CreatedNextDay(av, n, wl, tid, post);
      created := created + made;
    }
    assert av.order[..|av.order|] == av.order;
  }

  /** What the day loop has created after day n + 1 extends what it had
      after day n by that day's created requests. */
  lemma CreatedNextDay(av: Availability, n: nat, wl: WlMap, tid: Value, post: MatchRequest -> int)
    requires n < |av.order|
    ensures var day := av.order[n];
            Created(Proposals(av, av.order[..n + 1], wl, tid), post)
            == Created(Proposals(av, av.order[..n], wl, tid), post) + Created(DayRequests(tid, day, DayTeams(av, day), wl), post)
  {
    var day := av.order[n];
    assert av.order[..n + 1] == av.order[..n] + [day];
    ProposalsSnoc(av, av.order[..n], day, wl, tid);
    CreatedConcat(Proposals(av, av.order[..n], wl, tid), DayRequests(tid, day, DayTeams(av, day), wl), post);
  }

  /** One day of the day loop. */
  method PostDay(tid: Value, day: string, dayTeams: seq<Id>, wl: WlMap, post: MatchRequest -> int)
    returns (made: seq<MatchRequest>)
    ensures made == Created(DayRequests(tid, day, dayTeams, wl), post)
  {
    made := [];
    if |dayTeams| < 2 {
      return;
    }
    var pairs := PairTeamsByWl(dayTeams[..Min(4, |dayTeams|)], wl);
    made := PostPairs(tid, day, pairs, post);
  }

  method PostPairs(tid: Value, day: string, pairs: seq<(Id, Id)>, post: MatchRequest -> int)
    returns (made: seq<MatchRequest>)
    ensures made == Created(RequestsFor(tid, day, pairs), post)
  {
    made := [];
    ghost var rs := RequestsFor(tid, day, pairs);
    for k := 0 to |pairs|
      invariant made == Created(rs[..k], post)
    {
      var request := MatchRequest(tid, pairs[k].0, pairs[k].1, day);
      CreatedConcat(rs[..k], [request], post);
      assert rs[..k + 1] == rs[..k] + [request];
      if post(request) == 201 {
        made := made + [request];
      }
    }
    assert rs[..|pairs|] == rs;
  }

  lemma {:induction false} CreatedConcat(a: seq<MatchRequest>, b: seq<MatchRequest>, post: MatchRequest -> int)
    ensures Created(a + b, post) == Created(a, post) + Created(b, post)
  {
    if a == [] {
      assert a + b == b;
    } else {
      assert (a + b)[1..] == a[1..] + b;
      CreatedConcat(a[1..], b, post);
    }
  }

  lemma ProposalsSnoc(av: Availability, days: seq<string>, day: string, wl: WlMap, tid: Value)
    ensures Proposals(av, days + [day], wl, tid) == Proposals(av, days, wl, tid) + DayRequests(tid, day, DayTeams(av, day), wl)
  {
    assert (days + [day])[..|days|] == days;
  }

  // ---------------------------------------------------------------------
  // The /make_matches route

  datatype MakeMatchesOutcome =
    | MissingFields
    | ScheduleUnavailable
    | ScheduleRequestFailed(status: int)
    | RoundScheduleMissing
    | NoMatchesMade
    | MatchesMade(matches: seq<MatchRequest>)
  {
    function Status(): int
    {
      match this
      case MissingFields => 400
      case ScheduleUnavailable => 500
      case ScheduleRequestFailed(status) => status
      case RoundScheduleMissing => 404
      case NoMatchesMade => 200
      case MatchesMade(_) => 201
    }
  }

  /** The schedule document make_matches uses: its roundNumber equals the
      requested one, and the tournament id is a key of its nested tournament
      object (the shape `{tournamentId: name}`; documents in the shape
      create_schedule writes fail this test, see KeyTestMissesCreatedDoc). */
  predicate IsDayPlanDoc(doc: ScheduleDoc, round: Value, tid: Value)
  {
    doc.roundNumber == round && TournamentKeyTest(doc, tid)
  }

  method FindDayPlan(docs: seq<ScheduleDoc>, round: Value, tid: Value) returns (k: Option<nat>)
    ensures k.None? <==> forall m :: 0 <= m < |docs| ==> !IsDayPlanDoc(docs[m], round, tid)
    ensures k.Some? ==>
              k.value < |docs| && IsDayPlanDoc(docs[k.value], round, tid) &&
              forall m :: 0 <= m < k.value ==> !IsDayPlanDoc(docs[m], round, tid)
  {
    for m := 0 to |docs|
      invariant forall n :: 0 <= n < m ==> !IsDayPlanDoc(docs[n], round, tid)
    {
      if docs[m].roundNumber == round && Truthy(Obj(docs[m].tournament)) && KeyIn(tid, docs[m].tournament) {
        return Some(m);
      }
    }
    return None;
  }

  /** The round's matches come from the first day-plan document `k`, paired
      with the win-loss map `wl` of the tournament answer (empty when it is
      unavailable), and `created` are its requests answered with 201. */
  ghost predicate RoundPlan(docs: seq<ScheduleDoc>, data: Object, tournament: Fetch<seq<Team>>,
                            post: MatchRequest -> int, k: nat, wl: WlMap, created: seq<MatchRequest>)
  {
    var round := Get(data, "roundNumber");
    var tid := Get(data, "tournamentId");
    && k < |docs|
    && IsDayPlanDoc(docs[k], round, tid)
    && (forall m :: 0 <= m < k ==> !IsDayPlanDoc(docs[m], round, tid))
    && (!(tournament.Reply? && tournament.status == 200) ==> wl == map[])
    && (tournament.Reply? && tournament.status == 200 ==> WlOf(wl, tournament.body))
    && created == Created(Proposals(docs[k].teamAvailableDays, docs[k].teamAvailableDays.order, wl, tid), post)
  }

  /** Every listed id has a last listing. */
  lemma {:induction false} LastListingExists(teams: seq<Team>, i: nat)
    requires i < |teams|
    ensures exists k :: i <= k < |teams| && teams[k].teamId == teams[i].teamId && LastWithId(teams, k)
    decreases |teams| - i
  {
    if !LastWithId(teams, i) {
      var m :| i < m < |teams| && teams[m].teamId == teams[i].teamId;
      LastListingExists(teams, m);
    }
  }

  /** The win-loss map of a team list is determined by it. */
  lemma WlOfUnique(w1: WlMap, w2: WlMap, teams: seq<Team>)
    requires WlOf(w1, teams) && WlOf(w2, teams)
    ensures w1 == w2
  {
    forall t | t in w1 ensures t in w2 && w1[t] == w2[t] {
      var i :| 0 <= i < |teams| && TeamIds(teams)[i] == t;
      LastListingExists(teams, i);
    }
  }

  /** The round plan is determined by the answers: the created matches of
      make_matches are fixed by them. */
  lemma RoundPlanUnique(docs: seq<ScheduleDoc>, data: Object, tournament: Fetch<seq<Team>>, post: MatchRequest -> int,
                        k1: nat, wl1: WlMap, c1: seq<MatchRequest>, k2: nat, wl2: WlMap, c2: seq<MatchRequest>)
    requires RoundPlan(docs, data, tournament, post, k1, wl1, c1)
    requires RoundPlan(docs, data, tournament, post, k2, wl2, c2)
    ensures k1 == k2 && wl1 == wl2 && c1 == c2
  {
    if tournament.Reply? && tournament.status == 200 {
      WlOfUnique(wl1, wl2, tournament.body);
    }
  }

  /** make_matches. `schedules` and `tournament` are the answers of the
      schedule and tournament services, `post` the match service's answer to
      each creation request. */
  method MakeMatchesRoute(data: Object, schedules: Fetch<seq<ScheduleDoc>>, tournament: Fetch<seq<Team>>,
                          post: MatchRequest -> int) returns (r: MakeMatchesOutcome)
    requires schedules.Reply? ==> forall k :: 0 <= k < |schedules.body| ==> schedules.body[k].teamAvailableDays.Wf()
    ensures r.MissingFields? <==> !Truthy(Get(data, "tournamentId")) || Get(data, "roundNumber") == Null
    ensures var valid := Truthy(Get(data, "tournamentId")) && Get(data, "roundNumber") != Null;
            && (r.ScheduleUnavailable? <==> valid && schedules.ConnectionError?)
            && (r.ScheduleRequestFailed? <==> valid && schedules.Reply? && schedules.status != 200)
            && (r.RoundScheduleMissing? <==>
                  valid && schedules.Reply? && schedules.status == 200 &&
                  forall m :: 0 <= m < |schedules.body| ==>
                    !IsDayPlanDoc(schedules.body[m], Get(data, "roundNumber"), Get(data, "tournamentId")))
    ensures r.ScheduleRequestFailed? ==> r.status == schedules.status
    ensures r.MatchesMade? ==> r.matches != []
    ensures r.NoMatchesMade? ==> schedules.Reply? && exists k: nat, wl :: RoundPlan(schedules.body, data, tournament, post, k, wl, [])
    ensures r.MatchesMade? ==> schedules.Reply? && exists k: nat, wl :: RoundPlan(schedules.body, data, tournament, post, k, wl, r.matches)
  {
    var tid := Get(data, "tournamentId");
    var round := Get(data, "roundNumber");
    if !Truthy(tid) || round == Null {
      return MissingFields;
    }
    if schedules.ConnectionError? {
      return ScheduleUnavailable;
    }
    if schedules.status != 200 {
      return ScheduleRequestFailed(schedules.status);
    }
    var docs := schedules.body;
    var k := FindDayPlan(docs, round, tid);
    if k.None? {
      return RoundScheduleMissing;
    }
    var av := docs[k.value].teamAvailableDays;
    var wl := WlMapOf(tournament);
    var created := CreateDayMatches(av, wl, tid, post);
    assert RoundPlan(docs, data, tournament, post, k.value, wl, created);
    if created == [] {
      return NoMatchesMade;
    }
    r := MatchesMade(created);
  }
}
