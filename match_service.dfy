/** The match service: creating a match record, recording a result, and the
    rating update that follows a result. */
module MatchService {
  import opened Wrappers
  import opened Json
  import opened Teams
  import opened MatchRecord
  import opened TournamentService

  /** The rating a win gains, and a loss costs, in the match service. */
  const WinElo := 10
  /** The rating each side of a draw gains. */
  const DrawElo := 5

  // ---------------------------------------------------------------------
  // create_match

  /** The record create_match stores, or None when one of the four fields
      is missing or falsy. */
  function NewMatch(data: Object): (r: Option<MatchDoc>)
    ensures r.Some? <==>
              Truthy(Get(data, "tournamentId")) && Truthy(Get(data, "teamAId")) &&
              Truthy(Get(data, "teamBId")) && Truthy(Get(data, "scheduledTime"))
    ensures r.Some? ==>
              r.value.tournamentId == Get(data, "tournamentId") && r.value.teamAId == Get(data, "teamAId") &&
              r.value.teamBId == Get(data, "teamBId") && r.value.scheduledTime == Get(data, "scheduledTime")
    ensures r.Some? ==> r.value.result == Str("pending") && r.value.status == Str("scheduled")
    ensures r.Some? ==> r.value.score == Obj(map["teamA" := Int(0), "teamB" := Int(0)])
  {
    var tid := Get(data, "tournamentId");
    var a := Get(data, "teamAId");
    var b := Get(data, "teamBId");
    var time := Get(data, "scheduledTime");
    if !(Truthy(tid) && Truthy(a) && Truthy(b) && Truthy(time)) then None
    else Some(MatchDoc(tid, a, b, time, Str("pending"), Obj(map["teamA" := Int(0), "teamB" := Int(0)]), Str("scheduled")))
  }

  // ---------------------------------------------------------------------
  // update_team_stats

  /** One team's stats after a result: of the two teams of the match, the
      named winner gains a win and 10 points, each side of a draw gains 5,
      and in every other case the team takes a loss and 10 points less;
      teams outside the match are left as they were. */
  function Credit10(team: Team, teamA: Value, teamB: Value, result: Value): (r: Team)
    ensures r.teamId == team.teamId && r.players == team.players
    ensures team.teamId != teamA && team.teamId != teamB ==> r == team
  {
    var s := team.stats;
    if team.teamId == teamA || team.teamId == teamB then
      if result == TeamAWon && team.teamId == teamA then team.(stats := s.(wins := s.wins + 1, elo := s.elo + WinElo))
      else if result == TeamBWon && team.teamId == teamB then team.(stats := s.(wins := s.wins + 1, elo := s.elo + WinElo))
      else if result == Draw then team.(stats := s.(elo := s.elo + DrawElo))
      else team.(stats := s.(losses := s.losses + 1, elo := s.elo - WinElo))
    else team
  }

  function Credited10(teams: seq<Team>, teamA: Value, teamB: Value, result: Value): (r: seq<Team>)
    ensures |r| == |teams|
    ensures forall i :: 0 <= i < |teams| ==> r[i] == Credit10(teams[i], teamA, teamB, result)
  {
    seq(|teams|, i requires 0 <= i < |teams| => Credit10(teams[i], teamA, teamB, result))
  }

  /** The rating change of the whole tournament after a result, counted per
      listed entry: a decided result moves 10 points from each loser entry to
      each winner entry, a draw adds 5 per entry, and any other result takes
      10 points from every entry of both teams. */
  function EloChange10(na: int, nb: int, result: Value): int
  {
    if result == TeamAWon then WinElo * (na - nb)
    else if result == TeamBWon then WinElo * (nb - na)
    else if result == Draw then DrawElo * (na + nb)
    else -WinElo * (na + nb)
  }

  lemma Credit10OneElo(team: Team, teamA: Value, teamB: Value, result: Value)
    requires teamA != teamB
    ensures Credit10(team, teamA, teamB, result).stats.elo ==
              team.stats.elo + EloChange10(IsId(team, teamA), IsId(team, teamB), result)
  {
  }

  lemma {:induction false} Credit10Elo(teams: seq<Team>, teamA: Value, teamB: Value, result: Value)
    requires teamA != teamB
    ensures SumElo(Credited10(teams, teamA, teamB, result)) ==
              SumElo(teams) + EloChange10(CountId(teams, teamA), CountId(teams, teamB), result)
  {
    if teams != [] {
      var n := |teams| - 1;
      var init := teams[..n];
      var after := Credited10(teams, teamA, teamB, result);
      Credit10Elo(init, teamA, teamB, result);
      Credit10OneElo(teams[n], teamA, teamB, result);
      assert after[..n] == Credited10(init, teamA, teamB, result);
      assert SumElo(after) == SumElo(after[..n]) + after[n].stats.elo;
      assert CountId(teams, teamA) == CountId(init, teamA) + IsId(teams[n], teamA);
      assert CountId(teams, teamB) == CountId(init, teamB) + IsId(teams[n], teamB);
      EloChangeAdds(CountId(init, teamA), CountId(init, teamB), IsId(teams[n], teamA), IsId(teams[n], teamB), result);
    }
  }

  lemma EloChangeAdds(na: int, nb: int, ma: int, mb: int, result: Value)
    ensures EloChange10(na + ma, nb + mb, result) == EloChange10(na, nb, result) + EloChange10(ma, mb, result)
  {
  }

  /** With both teams listed once, a decided result moves exactly the 10
      points from the loser to the winner, and a draw adds 10 in all. */
  lemma Credit10Decided(teams: seq<Team>, teamA: Value, teamB: Value, result: Value)
    requires teamA != teamB && CountId(teams, teamA) == 1 && CountId(teams, teamB) == 1
    ensures result == TeamAWon || result == TeamBWon ==>
              SumElo(Credited10(teams, teamA, teamB, result)) == SumElo(teams)
    ensures result == Draw ==> SumElo(Credited10(teams, teamA, teamB, result)) == SumElo(teams) + 2 * DrawElo
  {
    Credit10Elo(teams, teamA, teamB, result);
  }

  /** A decided result gives the winner one win and 10 points and the loser
      one loss and 10 points less. */
  lemma Credit10WinLoss(team: Team, teamA: Value, teamB: Value, result: Value)
    requires teamA != teamB && (result == TeamAWon || result == TeamBWon)
    ensures var winner := if result == TeamAWon then teamA else teamB;
            var loser := if result == TeamAWon then teamB else teamA;
            var s := Credit10(team, teamA, teamB, result).stats;
            (team.teamId == winner ==>
               s == team.stats.(wins := team.stats.wins + 1, elo := team.stats.elo + WinElo)) &&
            (team.teamId == loser ==>
               s == team.stats.(losses := team.stats.losses + 1, elo := team.stats.elo - WinElo))
  {
  }

  /** A draw gives both teams 5 points and leaves wins and losses alone. */
  lemma Credit10Draw(team: Team, teamA: Value, teamB: Value)
    requires team.teamId == teamA || team.teamId == teamB
    ensures Credit10(team, teamA, teamB, Draw).stats == team.stats.(elo := team.stats.elo + DrawElo)
  {
  }

  /** update_team_stats: credit the stored tournament, when there is one. */
  method UpdateTeamStats(t: Tournament?, teamA: Value, teamB: Value, result: Value)
    modifies t
    ensures t != null ==> t.teams == Credited10(old(t.teams), teamA, teamB, result)
    ensures t != null ==> t.Header() == old(t.Header())
    ensures t != null && old(t.Valid()) ==> t.Valid()
  {
    if t == null {
      return;
    }
    ghost var before := t.teams;
    for i := 0 to |t.teams|
      invariant |t.teams| == |before|
      invariant forall k :: 0 <= k < i ==> t.teams[k] == Credit10(before[k], teamA, teamB, result)
      invariant forall k :: i <= k < |t.teams| ==> t.teams[k] == before[k]
      invariant t.Header() == old(t.Header())
    {
      t.teams := t.teams[i := Credit10(t.teams[i], teamA, teamB, result)];
    }
    CreditedKeepsPlayers(before, t.teams);
  }

  // ---------------------------------------------------------------------
  // update_match_result

  /** The results update_match_result accepts. */
  predicate KnownResult(result: Value)
  {
    result == TeamAWon || result == TeamBWon || result == Draw
  }

  datatype ResultOutcome = InvalidResult | NoSuchMatch | ResultRecorded(updated: MatchDoc)
  {
    function Status(): int
    {
      match this
      case InvalidResult => 400
      case NoSuchMatch => 404
      case ResultRecorded(_) => 200
    }
  }

  /** update_match_result: `m` is the stored match, `t` the stored tournament
      its tournamentId names (null when there is none). The result is checked first, then the match;
      the record is marked completed and both teams are credited. */
  method UpdateMatchResult(data: Object, m: Option<MatchDoc>, t: Tournament?) returns (r: ResultOutcome)
    requires m.Some? && t != null ==> t.id == m.value.tournamentId
    modifies t
    ensures r.InvalidResult? <==> !KnownResult(Get(data, "result"))
    ensures r.NoSuchMatch? <==> KnownResult(Get(data, "result")) && m.None?
    ensures r.ResultRecorded? ==>
              m.Some? && r.updated == m.value.(result := Get(data, "result"), score := GetOr(data, "score", Obj(map[])),
                                               status := Str("completed"))
    ensures r.ResultRecorded? && t != null ==>
              t.teams == Credited10(old(t.teams), m.value.teamAId, m.value.teamBId, Get(data, "result"))
    ensures !r.ResultRecorded? && t != null ==> t.teams == old(t.teams)
    ensures t != null ==> t.Header() == old(t.Header())
    ensures t != null && old(t.Valid()) ==> t.Valid()
  {
    var result := Get(data, "result");
    var score := GetOr(data, "score", Obj(map[]));
    if !KnownResult(result) {
      return InvalidResult;
    }
    if m.None? {
      return NoSuchMatch;
    }
    var updated := m.value.(result := result, score := score, status := Str("completed"));
    UpdateTeamStats(t, m.value.teamAId, m.value.teamBId, result);
    r := ResultRecorded(updated);
  }
}
