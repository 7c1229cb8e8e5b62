/** The tournament service: a tournament document with its list of teams,
    the admission rules for a new team and the rating update after a match. */
module TournamentService {
  import opened Wrappers
  import opened Json
  import opened Teams
  import opened MatchRecord

  const MaxTeams := 8
  const MaxPlayers := 40
  const DefaultElo := 1500
  /** The rating a win gains and a loss costs in update_match. */
  const MatchElo := 20

  /** No player is listed by two different teams. */
  predicate PlayersDisjoint(teams: seq<Team>)
  {
    forall i, j, p :: 0 <= i < j < |teams| && p in teams[i].players ==> p !in teams[j].players
  }

  /** The limits add_team enforces: at most 8 teams, at most 40 players in
      all, and no player in two teams. */
  predicate WithinLimits(teams: seq<Team>)
  {
    |teams| <= MaxTeams && TotalPlayers(teams) <= MaxPlayers && PlayersDisjoint(teams)
  }

  // ---------------------------------------------------------------------
  // create_tournament

  /** Both required fields are truthy. */
  predicate CreateRequestOk(data: Object)
  {
    Truthy(Get(data, "name")) && Truthy(Get(data, "tournament_id"))
  }

  /** The stored tournament document. */
  class Tournament {
    var id: Value
    var name: Value
    var game: Value
    var moderatorId: Value
    var status: Value
    var prizePool: Value
    var startDate: Value
    var endDate: Value
    var teams: seq<Team>

    ghost predicate Valid()
      reads this
    {
      WithinLimits(teams)
    }

    /** The fields other than the team list. */
    function Header(): seq<Value>
      reads this
    {
      [id, name, game, moderatorId, status, prizePool, startDate, endDate]
    }

    /** The record create_tournament stores: status "upcoming", no teams,
        game and moderatorId defaulting to "", prizePool to 0. */
    constructor (data: Object)
      requires CreateRequestOk(data)
      ensures id == Get(data, "tournament_id") && name == Get(data, "name")
      ensures game == GetOr(data, "game", Str("")) && moderatorId == GetOr(data, "moderatorId", Str(""))
      ensures status == Str("upcoming") && prizePool == GetOr(data, "prizePool", Int(0))
      ensures startDate == Get(data, "startDate") && endDate == Get(data, "endDate")
      ensures teams == []
      ensures Valid()
    {
      id := Get(data, "tournament_id");
      name := Get(data, "name");
      game := GetOr(data, "game", Str(""));
      moderatorId := GetOr(data, "moderatorId", Str(""));
      status := Str("upcoming");
      prizePool := GetOr(data, "prizePool", Int(0));
      startDate := Get(data, "startDate");
      endDate := Get(data, "endDate");
      teams := [];
    }

    /** add_team on an existing tournament: admit the team when the rules
        allow and append it with default stats; otherwise change nothing. */
    method AddTeam(teamId: Value, players: seq<Id>, elo: Option<int>) returns (r: AddTeamOutcome)
      modifies this
      ensures r == Admission(old(teams), teamId, players)
      ensures r.TeamAdded? ==> teams == old(teams) + [NewTeam(teamId, players, elo)]
      ensures !r.TeamAdded? ==> teams == old(teams)
      ensures Header() == old(Header())
      ensures old(Valid()) ==> Valid()
    {
      if !Truthy(teamId) || players == [] {
        return TeamOrPlayersMissing;
      }
      if |teams| >= MaxTeams {
        return TournamentFull;
      }
      if TotalPlayers(teams) + |players| > MaxPlayers {
        return TooManyPlayers;
      }
      var existing := AllPlayers(teams);
      if exists p :: p in players && p in existing {
        return PlayerAlreadyInTeam;
      }
      ghost var limited := WithinLimits(teams);
      if limited {
        AdmissionKeepsLimits(teams, teamId, players, elo);
      }
      teams := teams + [NewTeam(teamId, players, elo)];
      r := TeamAdded;
    }

    /** The stats loop of update_match. */
    method CreditMatch(teamA: Value, teamB: Value, result: Value)
      modifies this
      ensures teams == Credited20(old(teams), teamA, teamB, result)
      ensures Header() == old(Header())
      ensures old(Valid()) ==> Valid()
    {
      ghost var before := teams;
      for i := 0 to |teams|
        invariant |teams| == |before|
        invariant forall k :: 0 <= k < i ==> teams[k] == Credit20(before[k], teamA, teamB, result)
        invariant forall k :: i <= k < |teams| ==> teams[k] == before[k]
        invariant Header() == old(Header())
      {
        teams := teams[i := Credit20(teams[i], teamA, teamB, result)];
      }
      CreditedKeepsPlayers(before, Credited20(before, teamA, teamB, result));
    }

    /** update_tournament: set the status, "upcoming" when none is given. */
    method UpdateStatus(data: Object)
      modifies this
      ensures status == GetOr(data, "status", Str("upcoming"))
      ensures teams == old(teams)
      ensures id == old(id) && name == old(name) && game == old(game) && moderatorId == old(moderatorId)
      ensures prizePool == old(prizePool) && startDate == old(startDate) && endDate == old(endDate)
      ensures old(Valid()) ==> Valid()
    {
      status := GetOr(data, "status", Str("upcoming"));
    }
  }

  /** create_tournament: no record when a required field is missing. */
  method CreateTournament(data: Object) returns (t: Tournament?)
    ensures t == null <==> !CreateRequestOk(data)
    ensures t != null ==> fresh(t) && t.Valid() && t.teams == [] && t.status == Str("upcoming")
    ensures t != null ==> t.id == Get(data, "tournament_id") && t.name == Get(data, "name")
    ensures t != null ==> t.game == GetOr(data, "game", Str("")) && t.moderatorId == GetOr(data, "moderatorId", Str(""))
    ensures t != null ==> t.prizePool == GetOr(data, "prizePool", Int(0))
    ensures t != null ==> t.startDate == Get(data, "startDate") && t.endDate == Get(data, "endDate")
  {
    if !Truthy(Get(data, "name")) || !Truthy(Get(data, "tournament_id")) {
      return null;
    }
    t := new Tournament(data);
  }

  // ---------------------------------------------------------------------
  // add_team

  datatype AddTeamOutcome =
    | TeamOrPlayersMissing
    | TournamentNotFound
    | TournamentFull
    | TooManyPlayers
    | PlayerAlreadyInTeam
    | TeamAdded
  {
    function Status(): int
    {
      match this
      case TournamentNotFound => 404
      case TeamAdded => 200
      case _ => 400
    }
  }

  /** The team add_team appends: elo as given (1500 by default), no wins and
      no losses. */
  function NewTeam(teamId: Value, players: seq<Id>, elo: Option<int>): Team
  {
    Team(teamId, players, Stats(if elo.Some? then elo.value else DefaultElo, 0, 0))
  }

  /** The decision add_team takes on an existing tournament, rule by rule. */
  function Admission(teams: seq<Team>, teamId: Value, players: seq<Id>): AddTeamOutcome
  {
    if !Truthy(teamId) || players == [] then TeamOrPlayersMissing
    else if |teams| >= MaxTeams then TournamentFull
    else if TotalPlayers(teams) + |players| > MaxPlayers then TooManyPlayers
    else if exists p :: p in players && p in AllPlayers(teams) then PlayerAlreadyInTeam
    else TeamAdded
  }

  lemma TotalPlayersSnoc(teams: seq<Team>, t: Team)
    ensures TotalPlayers(teams + [t]) == TotalPlayers(teams) + |t.players|
  {
    assert (teams + [t])[..|teams|] == teams;
  }

  /** An admitted team keeps the tournament within its limits. */
  lemma AdmissionKeepsLimits(teams: seq<Team>, teamId: Value, players: seq<Id>, elo: Option<int>)
    requires WithinLimits(teams)
    requires Admission(teams, teamId, players) == TeamAdded
    ensures WithinLimits(teams + [NewTeam(teamId, players, elo)])
  {
    var t := NewTeam(teamId, players, elo);
    var r := teams + [t];
    TotalPlayersSnoc(teams, t);
    forall i, j, p | 0 <= i < j < |r| && p in r[i].players ensures p !in r[j].players {
      if j == |teams| {
        assert p in AllPlayers(teams) by {
          assert r[i] == teams[i];
        }
      } else {
        assert r[i] == teams[i] && r[j] == teams[j];
      }
    }
  }

  /** add_team does not compare team ids: a second team under an id already
      listed is admitted when its players are new. */
  lemma DuplicateIdAdmitted(p: Id, q: Id)
    requires p != q
    ensures var first := NewTeam(Str("t1"), [p], None);
            Admission([first], Str("t1"), [q]) == TeamAdded
  {
    var teams := [NewTeam(Str("t1"), [p], None)];
    assert teams[..0] == [];
    assert TotalPlayers(teams) == 1;
    assert q !in AllPlayers(teams) by {
      assert forall i, x :: 0 <= i < |teams| && x in teams[i].players ==> x == p;
    }
    assert !exists x :: x in [q] && x in AllPlayers(teams);
  }

  /** The rules add_team checks, in order, ahead of the lookup: missing
      fields first, then a tournament that does not exist. */
  method AddTeamRoute(t: Tournament?, teamId: Value, players: seq<Id>, elo: Option<int>) returns (r: AddTeamOutcome)
    modifies t
    ensures !Truthy(teamId) || players == [] ==> r == TeamOrPlayersMissing
    ensures Truthy(teamId) && players != [] && t == null ==> r == TournamentNotFound
    ensures t != null ==> r == Admission(old(t.teams), teamId, players)
    ensures t != null && r.TeamAdded? ==> t.teams == old(t.teams) + [NewTeam(teamId, players, elo)]
    ensures t != null && !r.TeamAdded? ==> t.teams == old(t.teams)
    ensures t != null ==> t.Header() == old(t.Header())
    ensures t != null && old(t.Valid()) ==> t.Valid()
  {
    if !Truthy(teamId) || players == [] {
      return TeamOrPlayersMissing;
    }
    if t == null {
      return TournamentNotFound;
    }
    r := t.AddTeam(teamId, players, elo);
  }

  // ---------------------------------------------------------------------
  // update_match

  /** One team's stats after update_match: the winner of a decided match
      gains a win and 20 points, the loser a loss and 20 points less; any
      other result, and any other team, is left as it was. */
  function Credit20(team: Team, teamA: Value, teamB: Value, result: Value): Team
  {
    var s := team.stats;
    if team.teamId == teamA && result == TeamAWon then team.(stats := s.(wins := s.wins + 1, elo := s.elo + MatchElo))
    else if team.teamId == teamB && result == TeamBWon then team.(stats := s.(wins := s.wins + 1, elo := s.elo + MatchElo))
    else if team.teamId == teamA && result == TeamBWon then team.(stats := s.(losses := s.losses + 1, elo := s.elo - MatchElo))
    else if team.teamId == teamB && result == TeamAWon then team.(stats := s.(losses := s.losses + 1, elo := s.elo - MatchElo))
    else team
  }

  function Credited20(teams: seq<Team>, teamA: Value, teamB: Value, result: Value): (r: seq<Team>)
    ensures |r| == |teams|
    ensures forall i :: 0 <= i < |teams| ==> r[i] == Credit20(teams[i], teamA, teamB, result)
  {
    seq(|teams|, i requires 0 <= i < |teams| => Credit20(teams[i], teamA, teamB, result))
  }

  /** The rating change update_match makes for one team. */
  lemma Credit20OneElo(team: Team, teamA: Value, teamB: Value, result: Value)
    requires teamA != teamB
    ensures var delta := IsId(team, teamA) - IsId(team, teamB);
            Credit20(team, teamA, teamB, result).stats.elo ==
              team.stats.elo + (if result == TeamAWon then MatchElo * delta
                                else if result == TeamBWon then -MatchElo * delta
                                else 0)
  {
  }

  /** The ratings move by 20 for every winning entry and by -20 for every
      losing one: with one entry per team, a decided match leaves the sum
      of ratings where it was, and any other result changes nothing. */
  lemma {:induction false} Credit20Elo(teams: seq<Team>, teamA: Value, teamB: Value, result: Value)
    requires teamA != teamB
    ensures var delta := CountId(teams, teamA) - CountId(teams, teamB);
            SumElo(Credited20(teams, teamA, teamB, result)) ==
              SumElo(teams) + (if result == TeamAWon then MatchElo * delta
                               else if result == TeamBWon then -MatchElo * delta
                               else 0)
  {
    if teams != [] {
      var n := |teams| - 1;
      var init := teams[..n];
      var after := Credited20(teams, teamA, teamB, result);
      Credit20Elo(init, teamA, teamB, result);
      Credit20OneElo(teams[n], teamA, teamB, result);
      assert after[..n] == Credited20(init, teamA, teamB, result);
      assert SumElo(after) == SumElo(after[..n]) + after[n].stats.elo;
      assert CountId(teams, teamA) == CountId(init, teamA) + IsId(teams[n], teamA);
      assert CountId(teams, teamB) == CountId(init, teamB) + IsId(teams[n], teamB);
    }
  }

  /** With every team listed once, a decided match moves no rating points
      in or out of the tournament. */
  lemma Credit20Conserves(teams: seq<Team>, teamA: Value, teamB: Value, result: Value)
    requires teamA != teamB && CountId(teams, teamA) == CountId(teams, teamB)
    ensures SumElo(Credited20(teams, teamA, teamB, result)) == SumElo(teams)
  {
    Credit20Elo(teams, teamA, teamB, result);
  }

  /** A decided match gives the winner one win and 20 points and the loser
      one loss and 20 points less. */
  lemma Credit20WinLoss(team: Team, teamA: Value, teamB: Value, result: Value)
    requires teamA != teamB && (result == TeamAWon || result == TeamBWon)
    ensures var winner := if result == TeamAWon then teamA else teamB;
            var loser := if result == TeamAWon then teamB else teamA;
            var s := Credit20(team, teamA, teamB, result).stats;
            (team.teamId == winner ==>
               s == team.stats.(wins := team.stats.wins + 1, elo := team.stats.elo + MatchElo)) &&
            (team.teamId == loser ==>
               s == team.stats.(losses := team.stats.losses + 1, elo := team.stats.elo - MatchElo)) &&
            (team.teamId != winner && team.teamId != loser ==> s == team.stats)
  {
  }

  /** Any result other than the two decided ones leaves every team as it
      was: update_match has no draw rule. */
  lemma Credit20Undecided(teams: seq<Team>, teamA: Value, teamB: Value, result: Value)
    requires result != TeamAWon && result != TeamBWon
    ensures Credited20(teams, teamA, teamB, result) == teams
  {
  }

  /** A crediting loop changes stats only, so the limits still hold. */
  lemma CreditedKeepsPlayers(before: seq<Team>, after: seq<Team>)
    requires |after| == |before| && forall i :: 0 <= i < |before| ==> after[i].players == before[i].players
    ensures TotalPlayers(after) == TotalPlayers(before)
    ensures WithinLimits(before) ==> WithinLimits(after)
  {
    SamePlayersTotal(before, after);
  }

  lemma {:induction false} SamePlayersTotal(before: seq<Team>, after: seq<Team>)
    requires |after| == |before| && forall i :: 0 <= i < |before| ==> after[i].players == before[i].players
    ensures TotalPlayers(after) == TotalPlayers(before)
  {
    if before != [] {
      SamePlayersTotal(before[..|before| - 1], after[..|after| - 1]);
    }
  }

  datatype UpdateMatchOutcome =
    | MatchNotFound
    | WrongTournament
    | InvalidMatchData
    | NoSuchTournament
    | ResultsUpdated
  {
    function Status(): int
    {
      match this
      case MatchNotFound => 404
      case WrongTournament => 400
      case InvalidMatchData => 400
      case NoSuchTournament => 404
      case ResultsUpdated => 200
    }
  }

  /** update_match for the tournament id `tid` of the path; `m` is the stored
      match (None when absent) and `t` the stored tournament. */
  method UpdateMatch(t: Tournament?, tid: string, m: Option<MatchDoc>) returns (r: UpdateMatchOutcome)
    modifies t
    ensures r.MatchNotFound? <==> m.None?
    ensures r.WrongTournament? <==> m.Some? && m.value.tournamentId != Str(tid)
    ensures r.InvalidMatchData? <==>
              m.Some? && m.value.tournamentId == Str(tid) &&
              !(Truthy(m.value.result) && Truthy(m.value.teamAId) && Truthy(m.value.teamBId))
    ensures r.NoSuchTournament? <==>
              m.Some? && m.value.tournamentId == Str(tid) &&
              Truthy(m.value.result) && Truthy(m.value.teamAId) && Truthy(m.value.teamBId) && t == null
    ensures r.ResultsUpdated? ==>
              t != null && t.teams == Credited20(old(t.teams), m.value.teamAId, m.value.teamBId, m.value.result)
    ensures t != null && !r.ResultsUpdated? ==> t.teams == old(t.teams)
    ensures t != null ==> t.Header() == old(t.Header())
    ensures t != null && old(t.Valid()) ==> t.Valid()
  {
    if m.None? {
      return MatchNotFound;
    }
    var doc := m.value;
    if doc.tournamentId != Str(tid) {
      return WrongTournament;
    }
    if !Truthy(doc.result) || !Truthy(doc.teamAId) || !Truthy(doc.teamBId) {
      return InvalidMatchData;
    }
    if t == null {
      return NoSuchTournament;
    }
    t.CreditMatch(doc.teamAId, doc.teamBId, doc.result);
    r := ResultsUpdated;
  }
}
