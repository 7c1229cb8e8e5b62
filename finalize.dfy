/** The finalize-outcome composite service: it records a result through the
    match service, re-applies the rating rule to the tournament's teams and
    pushes them back to the tournament service. */
module Finalize {
  import opened Json
  import opened Teams
  import opened Http
  import opened MatchService

  datatype FinalizeResult =
    | MissingMatchOrResult
    | MatchNotFound
    | MatchIncomplete
    | MatchUpdateFailed
    | TournamentUnavailable
    | StatsUpdateFailed(sent: seq<Team>)
    | Finalized(sent: seq<Team>)
    | ServiceUnreachable
  {
    function Status(): int
    {
      match this
      case MissingMatchOrResult => 400
      case MatchNotFound => 404
      case MatchIncomplete => 400
      case Finalized(_) => 200
      case _ => 500
    }
  }

  /** The body of the result update sent to the match service. */
  function ResultUpdate(data: Object): Object
  {
    map["result" := Get(data, "result"), "score" := GetOr(data, "score", Obj(map[]))]
  }

  /** The match record names a tournament and both teams. */
  predicate MatchComplete(m: Object)
  {
    Truthy(Get(m, "tournamentId")) && Truthy(Get(m, "teamAId")) && Truthy(Get(m, "teamBId"))
  }

  /** The request names a match and a result, both truthy. */
  predicate HasMatchAndResult(data: Object)
  {
    Truthy(Get(data, "matchId")) && Truthy(Get(data, "result"))
  }

  /** The checks before the result update passed: a usable request, the
      match found and its record complete. */
  predicate ResultStage(data: Object, matchRes: Fetch<Object>)
  {
    HasMatchAndResult(data) && Ok(matchRes) && MatchComplete(matchRes.body)
  }

  /** finalize_outcome. `matchRes` is the match service's answer for the
      match, `putResult` the status it answers to a result update,
      `tournament` the tournament service's answer (its teams) and
      `pushTeams` the status it answers when sent the credited teams. A
      call that cannot connect raises, which the framework answers with 500. */
  method FinalizeOutcome(data: Object, matchRes: Fetch<Object>, putResult: Object -> int,
                         tournament: Fetch<seq<Team>>, pushTeams: seq<Team> -> int)
    returns (r: FinalizeResult)
    ensures r.MissingMatchOrResult? <==> !HasMatchAndResult(data)
    ensures r.MatchNotFound? <==> HasMatchAndResult(data) && matchRes.Reply? && matchRes.status != 200
    ensures r.MatchIncomplete? <==> HasMatchAndResult(data) && Ok(matchRes) && !MatchComplete(matchRes.body)
    ensures r.MatchUpdateFailed? <==> ResultStage(data, matchRes) && putResult(ResultUpdate(data)) != 200
    ensures r.ServiceUnreachable? <==>
              HasMatchAndResult(data) &&
              (matchRes.ConnectionError? ||
               (ResultStage(data, matchRes) && putResult(ResultUpdate(data)) == 200 && tournament.ConnectionError?))
    ensures r.TournamentUnavailable? <==>
              ResultStage(data, matchRes) && putResult(ResultUpdate(data)) == 200 &&
              tournament.Reply? && tournament.status != 200
    ensures r.StatsUpdateFailed? || r.Finalized? <==>
              ResultStage(data, matchRes) && putResult(ResultUpdate(data)) == 200 && Ok(tournament)
    ensures r.StatsUpdateFailed? || r.Finalized? ==>
              r.sent == Credited10(tournament.body, Get(matchRes.body, "teamAId"), Get(matchRes.body, "teamBId"),
                                   Get(data, "result"))
    ensures r.StatsUpdateFailed? ==> pushTeams(r.sent) != 200
    ensures r.Finalized? ==> pushTeams(r.sent) == 200
  {
    var matchId := Get(data, "matchId");
    var result := Get(data, "result");
    if !Truthy(matchId) || !Truthy(result) {
      return MissingMatchOrResult;
    }
    if matchRes.ConnectionError? {
      return ServiceUnreachable;
    }
    if matchRes.status != 200 {
      return MatchNotFound;
    }
    var m := matchRes.body;
    var teamA := Get(m, "teamAId");
    var teamB := Get(m, "teamBId");
    if !Truthy(Get(m, "tournamentId")) || !Truthy(teamA) || !Truthy(teamB) {
      return MatchIncomplete;
    }
    if putResult(ResultUpdate(data)) != 200 {
      return MatchUpdateFailed;
    }
    if tournament.ConnectionError? {
      return ServiceUnreachable;
    }
    if tournament.status != 200 {
      return TournamentUnavailable;
    }
    var teams := tournament.body;
    for i := 0 to |teams|
      invariant |teams| == |tournament.body|
      invariant forall k :: 0 <= k < i ==> teams[k] == Credit10(tournament.body[k], teamA, teamB, result)
      invariant forall k :: i <= k < |teams| ==> teams[k] == tournament.body[k]
    {
      teams := teams[i := Credit10(teams[i], teamA, teamB, result)];
    }
    if pushTeams(teams) != 200 {
      return StatsUpdateFailed(teams);
    }
    r := Finalized(teams);
  }

  /** finalize_outcome passes any truthy result on; one outside the three
      known ones counts as a loss for both teams of the match. */
  lemma UnknownResultBothLose(teams: seq<Team>, teamA: Value, teamB: Value, result: Value)
    requires teamA != teamB && !KnownResult(result)
    ensures forall i :: 0 <= i < |teams| && (teams[i].teamId == teamA || teams[i].teamId == teamB) ==>
              var s := Credited10(teams, teamA, teamB, result)[i].stats;
              s.wins == teams[i].stats.wins && s.losses == teams[i].stats.losses + 1 &&
              s.elo == teams[i].stats.elo - WinElo
    ensures SumElo(Credited10(teams, teamA, teamB, result)) ==
              SumElo(teams) - WinElo * (CountId(teams, teamA) + CountId(teams, teamB))
  {
    Credit10Elo(teams, teamA, teamB, result);
  }
}
