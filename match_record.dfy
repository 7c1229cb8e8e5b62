/** A stored match document, as create_match writes it and the services that
    settle a result read it. */
module MatchRecord {
  import opened Json

  datatype MatchDoc = MatchDoc(
    tournamentId: Value,
    teamAId: Value,
    teamBId: Value,
    scheduledTime: Value,
    result: Value,
    score: Value,
    status: Value)

  const TeamAWon := Str("teamA won")
  const TeamBWon := Str("teamB won")
  const Draw := Str("draw")
}
