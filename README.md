# Tournament services: a verified model

This project models the core of a tournament organiser made of small Flask
services backed by a document store. Tournaments collect teams, subject to
three limits: 8 teams, 40 players, and no player in two teams. Teams submit
the days they can play in each round. Two generators then propose the
round's matches:

- **make-match** ranks the teams by wins, then elo. It pairs each team with
  the first later team that shares a day, on the earliest shared day. A
  shuffled fallback pass follows, and the round is accepted only when every
  team is paired.
- **make-matches** works day by day. It sorts the first four teams free on
  a day by win-loss difference and pairs neighbours.

Recording a result updates the teams' wins, losses and ratings:

- in the tournament service, ±20 per decided match;
- in the match service and the finalize-outcome composite, ±10 per decided
  match and +5 to each side of a draw.

The dispute composite checks a dispute for its four required fields.

The model is written in Dafny.

- JSON values are a datatype (`Json.Value`) with Python's truthiness.
- Stored documents are values, except the tournament record. The
  tournament record is a class (`TournamentService.Tournament`), because
  its team list is updated in place.
- Calls to other services are parameters:
  - an answer (`Http.Fetch`) is a connection error or a status code with a
    decoded body;
  - a posting is a function from the request to the status it is answered
    with.
- `random.shuffle` is a function parameter. The lemmas that need it assume
  only that it permutes its argument.

The main result is about make-match:

- After the greedy pass, no two unpaired teams share a day.
- So the shuffled fallback never forms a pair.
- So the generated round is the same whatever the shuffle does
  (`MakeMatch.FallbackNeverPairs`).
- The round is accepted exactly when the greedy pass pairs every team
  (`MakeMatch.RoundAccepted`).

The services' request handlers are modelled as methods returning an outcome
datatype with a `Status()` per branch. These are `make_match`,
`make_matches`, `create_schedule`, `get_schedules_by_tournament_id`,
`submit_availability`, `create_tournament`, `add_team`, `update_match`,
`create_match`, `update_match_result`, `finalize_outcome` and `dispute_new`.

Where the schedule service's code and its evident design disagree, the
model follows the design and records the code as written under
"## Findings".

The make-matches service fetches `/schedule/<tournamentId>`. That route is
commented out in the schedule service
(backend/services/schedule-service/schedule_service.py:57-69). Its
documents had the older shape `{tournamentId: name}`. So the make-matches
document test (`MakeAMatch.IsDayPlanDoc`) is modelled as written: a
key-membership test in the nested tournament object.

Likewise, finalize-outcome pushes the credited teams to an
`update_team_stats` route of the tournament service, and that route is
commented out (backend/services/tournament-service/tournament_service.py:121-134).
The answer to that push is a parameter of `Finalize.FinalizeOutcome`.

## Model

| member | source | states |
|---|---|---|
| MakeMatch.SortTeams | backend/composite-service/make-a-match-service/make_match.py:21-22 | the teams are permuted into wins-descending, then elo-descending order; teams of equal rank keep their input order (their subsequence is unchanged); losses play no part |
| StableSort.SortIsTheStableSort | backend/composite-service/make-a-match-service/make_match.py:21-22 | a permutation that is descending by key and keeps the input order of every key is the generic sort's result: the stable descending sort is unique |
| MakeMatch.InvertAvailability | backend/composite-service/make-a-match-service/make_match.py:28-33 | the map built from the day lists gives each team exactly the days whose list names it |
| MakeMatch.SharedSymmetric | backend/composite-service/make-a-match-service/make_match.py:47 | the shared-day set of two teams does not depend on their order |
| MakeMatch.CommonDay | backend/composite-service/make-a-match-service/make_match.py:47-49 | None exactly when the two teams share no day; otherwise the least shared day in string order |
| Strings.LeastIsLeastOf | backend/composite-service/make-a-match-service/make_match.py:49 | the first element of the sorted shared days is the least element of the set |
| MakeMatch.FirstPartner | backend/composite-service/make-a-match-service/make_match.py:43-52 | the partner found is unused and shares a day, and no earlier later-ranked team is both |
| MakeMatch.GreedyPass | backend/composite-service/make-a-match-service/make_match.py:38-52 | the loop computes the greedy pairing of the ranked teams, in which each unused team takes the partner FirstPartner finds |
| MakeMatch.GreedyPairingValid | backend/composite-service/make-a-match-service/make_match.py:38-52 | with distinct ids: each pair is on the teams' least shared day, teamA is ranked before teamB, no id is in two pairs, the used set is exactly the paired ids, and no two unused teams share a day |
| MakeMatch.Unpaired | backend/composite-service/make-a-match-service/make_match.py:55 | the remaining teams are the teams whose ids are unused, in order |
| MakeMatch.Fallback | backend/composite-service/make-a-match-service/make_match.py:58-72 | the pop-and-search loop computes the fallback outcome: None as soon as a popped team has no remaining sharer |
| MakeMatch.CreateMatchPairs | backend/composite-service/make-a-match-service/make_match.py:25-72 | the whole procedure computes the specified pairing for the given shuffle |
| MakeMatch.FallbackNeverPairs | backend/composite-service/make-a-match-service/make_match.py:54-72 | with distinct ids and any permuting shuffle: the result is None exactly when two or more teams are left after the greedy pass, and otherwise the greedy pairs; the shuffle has no effect |
| MakeMatch.RoundAccepted | backend/composite-service/make-a-match-service/make_match.py:144-152 | the round passes the coverage test exactly when the greedy pass leaves no team unpaired; then the pairs are the greedy pairs and cover every team once; an odd number of teams is never accepted |
| PyInt.ParseShow | backend/composite-service/make-a-match-service/make_match.py:84-87 | parsing an integer's decimal rendering gives the integer back (the round-number parse) |
| MakeMatch.FindRoundSchedule | backend/composite-service/make-a-match-service/make_match.py:104-120 | None exactly when no document parses to the round and belongs to the tournament; otherwise the first such document, earlier ones failing the test |
| MakeMatch.PostMatches | backend/composite-service/make-a-match-service/make_match.py:155-174 | all pairs posted with 201, or the first pair refused, with every earlier one accepted |
| MakeMatch.MakeMatchRoute | backend/composite-service/make-a-match-service/make_match.py:75-181 | the status of each branch and the condition that selects it: invalid round 400, missing tournament 400, schedule call failure 500 or its status, no round document 404, tournament call failure or non-200 answer 500, uncovered round 400; a refused posting 500 names the first pair not answered with 201, all earlier ones accepted; success 201 only when every pair was posted, with the number of pairs |
| MakeAMatch.SortByWl | backend/composite-service/make-a-match-service/make_a_match.py:18-22 | a permutation descending by wins minus losses, missing stats counting 0, teams with equal differences keeping their listed order |
| MakeAMatch.PairTeamsByWl | backend/composite-service/make-a-match-service/make_a_match.py:17-28 | the loop pairs neighbours of the sorted list |
| Pairs.PairUp | backend/composite-service/make-a-match-service/make_a_match.py:23-28 | exactly n div 2 pairs, pair k being elements 2k and 2k+1 |
| Pairs.FlattenPairUp | backend/composite-service/make-a-match-service/make_a_match.py:23-28 | the paired elements, in order, are the list without its odd last element |
| MakeAMatch.PairTeamsByWlValid | backend/composite-service/make-a-match-service/make_a_match.py:17-28 | with distinct teams: no team in two pairs or twice in one, every paired team from the input, and with an odd count only the lowest-ranked team left out |
| MakeAMatch.PairTeamsWithoutWl | backend/composite-service/make-a-match-service/make_a_match.py:64-78 | with no win-loss data every difference is 0 and the teams are paired in listed order |
| MakeAMatch.BuildWlMap | backend/composite-service/make-a-match-service/make_a_match.py:71-75 | the map's keys are the teams' ids, and each maps to the wins and losses of the last team listed with that id |
| MakeAMatch.WlMapOf | backend/composite-service/make-a-match-service/make_a_match.py:64-78 | an unavailable tournament (connection error or a status other than 200) gives the empty map |
| MakeAMatch.DayRequestsValid | backend/composite-service/make-a-match-service/make_a_match.py:82-95 | a day with fewer than two teams gives no request; otherwise min(4, n) div 2 requests, each on that day between two of the first four teams listed |
| MakeAMatch.ProposalsValid | backend/composite-service/make-a-match-service/make_a_match.py:82-95 | every proposed match is on a day of the availability between two teams listed for that day |
| MakeAMatch.PairedOnEveryDay | backend/composite-service/make-a-match-service/make_a_match.py:82-89 | days are paired independently: two teams free on two days are proposed a match on each |
| MakeAMatch.Created | backend/composite-service/make-a-match-service/make_a_match.py:96-105 | the created matches are exactly the requests answered with 201, in order |
| MakeAMatch.CreatedConcat | backend/composite-service/make-a-match-service/make_a_match.py:82-105 | the 201 filter distributes over the days |
| MakeAMatch.CreateDayMatches | backend/composite-service/make-a-match-service/make_a_match.py:80-105 | the day loop keeps, in day order, the proposed requests answered with 201 |
| MakeAMatch.FindDayPlan | backend/composite-service/make-a-match-service/make_a_match.py:53-59 | the first document whose roundNumber equals the request's and whose tournament object has the id as a key; None when there is none |
| MakeAMatch.WlOfUnique | backend/composite-service/make-a-match-service/make_a_match.py:71-75 | the win-loss map of a team list is determined by the list |
| MakeAMatch.RoundPlanUnique | backend/composite-service/make-a-match-service/make_a_match.py:53-105 | the document chosen, the win-loss map and the created matches are determined by the request and the services' answers |
| MakeAMatch.MakeMatchesRoute | backend/composite-service/make-a-match-service/make_a_match.py:31-110 | missing fields 400, the schedule call's failure status or 500, no document 404; otherwise the matches of the round plan (first document, win-loss map, requests answered with 201): none 200, else 201 with them |
| ScheduleService.CreateSchedule | backend/services/schedule-service/schedule_service.py:22-54 | for either ownership test (`KeyMembership`, line 36 as written, or the intended `NestedId`): missing fields 400; 400 exactly when a document of the round passes the test; otherwise 201 with the new document: tournament {tournamentId, name}, the round, dateTime defaulting to "", no availability |
| ScheduleService.CreatedRoundIsTaken | backend/services/schedule-service/schedule_service.py:33-52 | under the intended nested-id test, once a schedule is created, the store holds a document that makes a second request for the same tournament and round taken |
| ScheduleService.KeyTestMissesCreatedDoc | backend/services/schedule-service/schedule_service.py:36 | the key-membership test as written fails on the document create_schedule writes, for every id other than the two key names |
| ScheduleService.ForTournamentInMembers | backend/services/schedule-service/schedule_service.py:77-88 | the documents kept are exactly those whose nested tournamentId equals the id |
| ScheduleService.GetSchedulesByTournamentId | backend/services/schedule-service/schedule_service.py:72-93 | 404 exactly when no document matches; otherwise 200 with the matching documents in store order |
| ScheduleService.MergeAvailability | backend/services/schedule-service/schedule_service.py:127-131 | the loop computes the merge of the submitted days |
| ScheduleService.MergeDay | backend/services/schedule-service/schedule_service.py:127-131 | after the merge a submitted day's list is its old list (or an empty one for a new day) with the team appended when absent; unsubmitted days are unchanged |
| ScheduleService.MergeListsTeam | backend/services/schedule-service/schedule_service.py:127-131 | the team is on every submitted day's list |
| ScheduleService.MergeKeepsOrder | backend/services/schedule-service/schedule_service.py:127-131 | the merge keeps the availability well formed, only appends new days at the end of the key order, and keeps the order when every day exists |
| ScheduleService.MergeIdempotent | backend/services/schedule-service/schedule_service.py:127-131 | submitting the same days twice gives the same availability as once |
| ScheduleService.SubmitAvailability | backend/services/schedule-service/schedule_service.py:101-135 | for either ownership test (`KeyMembership`, line 116 as written, or the intended `NestedId`): missing fields 400; 404 exactly when no document of the round passes the test; otherwise 200, the first such document's availability replaced by the merge |
| ScheduleService.CreatedScheduleIsFound | backend/services/schedule-service/schedule_service.py:39-51 | under the intended nested-id test, the document create_schedule writes is a document of its tournament and round |
| ScheduleService.KeyMembershipRoutes | backend/services/schedule-service/schedule_service.py:22-135 | with the tests as written, on an empty store two identical create requests are both answered 201, storing two documents of the same tournament and round, and an availability submission for that round answers 404 (ids other than the two key names) |
| ScheduleService.NestedIdRoutes | backend/services/schedule-service/schedule_service.py:22-135 | with the intended test, the second identical create request is refused and the submission answers 200, merging the team into the created document's empty availability |
| TournamentService.Tournament.constructor | backend/services/tournament-service/tournament_service.py:25-36 | the stored record: status "upcoming", no teams, game and moderatorId "" and prizePool 0 by default, dates as given |
| TournamentService.CreateTournament | backend/services/tournament-service/tournament_service.py:20-37 | no record exactly when name or tournament_id is missing; a new record is within the limits, with no teams, status "upcoming", the given id, name and dates, game and moderatorId defaulting to "" and prizePool to 0 |
| TournamentService.Tournament.UpdateStatus | backend/services/tournament-service/tournament_service.py:49-52 | the status becomes the one given, "upcoming" by default, and nothing else changes |
| TournamentService.Tournament.AddTeam | backend/services/tournament-service/tournament_service.py:84-119 | the admission decision; on admission exactly one team is appended with the given elo (1500 by default) and no wins or losses, otherwise the teams are unchanged; the limits are preserved |
| TournamentService.AdmissionKeepsLimits | backend/services/tournament-service/tournament_service.py:94-116 | a team admitted into a tournament within the limits (8 teams, 40 players, no shared player) leaves it within them |
| TournamentService.DuplicateIdAdmitted | backend/services/tournament-service/tournament_service.py:103-106 | a second team under an id already listed is admitted when its players are new |
| TournamentService.AddTeamRoute | backend/services/tournament-service/tournament_service.py:80-119 | missing team id or players 400 first, then a missing tournament 404; for an existing tournament the answer is exactly the admission rules' verdict, the team appended only when admitted; no other field of the tournament changes |
| TournamentService.Tournament.CreditMatch | backend/services/tournament-service/tournament_service.py:159-175 | each team's stats are replaced by the ±20 rule, in place, with the order and the other fields kept |
| TournamentService.Credit20Elo | backend/services/tournament-service/tournament_service.py:161-173 | the rating total moves by 20 per winner entry and -20 per loser entry, so with one entry per team a decided match conserves it |
| TournamentService.Credit20Conserves | backend/services/tournament-service/tournament_service.py:161-173 | with A and B listed equally often, the rating total is unchanged |
| TournamentService.Credit20WinLoss | backend/services/tournament-service/tournament_service.py:161-173 | the winner gains a win and 20, the loser a loss and loses 20, other teams are unchanged |
| TournamentService.Credit20Undecided | backend/services/tournament-service/tournament_service.py:161-173 | any result other than the two decided ones (a draw, "pending") changes no team |
| TournamentService.CreditedKeepsPlayers | backend/services/tournament-service/tournament_service.py:161-175 | crediting changes no player list, so the limits still hold |
| TournamentService.UpdateMatch | backend/services/tournament-service/tournament_service.py:138-176 | missing match 404, another tournament's match 400, missing result or team 400, missing tournament 404, each exactly when its condition holds after the earlier checks; otherwise the teams are credited; in every rejected case they are unchanged, and no other field of the tournament changes |
| MatchService.NewMatch | backend/services/match-service/match_service.py:22-42 | no record exactly when a field is missing or falsy; otherwise the fields as given, result "pending", score 0 to 0, status "scheduled" |
| MatchService.Credit10 | backend/services/match-service/match_service.py:83-95 | the team keeps its id and players, and a team outside the match is unchanged |
| MatchService.Credit10Elo | backend/services/match-service/match_service.py:83-95 | the rating total moves by 10 per winner entry and -10 per loser entry, +5 per draw entry, and -10 per entry of either team for any other result |
| MatchService.Credit10Decided | backend/services/match-service/match_service.py:83-95 | with both teams listed once, a win conserves the rating total and a draw adds 10 in all |
| MatchService.Credit10WinLoss | backend/services/match-service/match_service.py:85-95 | the winner gains a win and 10, the loser a loss and loses 10 |
| MatchService.Credit10Draw | backend/services/match-service/match_service.py:91-92 | a draw gives both teams 5 and leaves wins and losses alone |
| MatchService.UpdateTeamStats | backend/services/match-service/match_service.py:76-97 | a missing tournament changes nothing; otherwise each team is credited in place, with the order and the other fields kept and the limits preserved |
| MatchService.UpdateMatchResult | backend/services/match-service/match_service.py:54-72 | given the tournament the match names, an unknown result 400 first, then a missing match 404; otherwise the match is completed with the result and score ({} by default) and the teams are credited; no other field of the tournament changes |
| Finalize.FinalizeOutcome | backend/composite-service/finalize-match-outcome-service/finalize_match_outcome_service.py:15-75 | each answer exactly when its condition holds, the earlier checks having passed: missing matchId or result 400, match not found 404, incomplete match 400, failed result update 500, a call that cannot connect 500, tournament unavailable 500; otherwise the fetched teams are credited by the ±10 rule and pushed back, 200 or 500 by the push's answer |
| Finalize.UnknownResultBothLose | backend/composite-service/finalize-match-outcome-service/finalize_match_outcome_service.py:55-67 | a result outside the three known ones gives both teams a loss and -10 each |
| Dispute.In | backend/composite-service/handle-dispute-service/handle_dispute_service.py:19 | the membership test on a payload: a key of an object, an element of a list, a piece of a string; numbers, booleans and null raise |
| Dispute.MissingFields | backend/composite-service/handle-dispute-service/handle_dispute_service.py:18-19 | exactly the required fields the payload lacks, without repeats, and a subsequence of the list, so in its order |
| Strings.JoinNamesEveryPart | backend/composite-service/handle-dispute-service/handle_dispute_service.py:21 | the joined message names every part |
| Dispute.DisputeNew | backend/composite-service/handle-dispute-service/handle_dispute_service.py:9-44 | an empty payload 400; a raising membership test 500; 200 with the payload echoed exactly when every field is present; otherwise 400 with a message naming a missing field |
| Dispute.ObjectPayload | backend/composite-service/handle-dispute-service/handle_dispute_service.py:18-21 | an object payload is accepted exactly when it has all four keys, whatever their values, and the message names every absent one |
| Dispute.OnlyEvidenceMissing | backend/composite-service/handle-dispute-service/handle_dispute_service.py:18-21 | a payload lacking only the evidence link is refused with the message "Missing fields: evidenceUrl" |

## Left out

- Flask routing, CORS, the OPTIONS preflight answers, and logging and printing are left out.
- Reads and writes of the document store become inputs (the stored documents, or `null` when absent) and outputs (the new or updated document).
- Answers of other services (`requests`) become `Http.Fetch` inputs. A failed posting becomes a function giving the status.
- The HTTP calls in make-match, make-matches and finalize-outcome are modelled only through the status each answer carries. Their side effects on the other services are not modelled: matches created before a refused one stay created, and nothing is rolled back.
- MakeMatch.FallbackNeverPairs, MakeMatch.RoundAccepted and MakeMatch.GreedyPairingValid: require distinct team ids. With a repeated id, the Python `used` set conflates two team records. The model computes that case but proves nothing about it.
- MakeAMatch.MakeMatchesRoute keeps the creation requests that were answered with 201. The source keeps the match service's reply bodies instead.
- Request and reply bodies are decoded into typed fields. Examples: a list of team ids, integer stats, and a list of day strings. A body of another shape, such as a non-list `players` or a missing `teamStats` on a stored team, is not modelled.
- Python's cross-type equality is not modelled, for example `True == 1` between JSON values.
- PyInt.ParseDecimal: reads ASCII digits only. Python's `int()` also accepts the other Unicode decimal digits (for example U+0663), so for such a round number the model answers InvalidRoundNumber where the source parses a value. The Unicode digit table is not modelled; the whitespace `int()` strips, including the non-ASCII kinds, is.
- Floating-point numbers are not modelled. Nor are unhashable ids, where Python raises.
- The fetched availability is assumed well formed: each day key appears once in the dictionary's order.
- A request body that is not JSON is not modelled. Neither is the 500 that the framework answers to an exception a handler does not catch. The one exception modelled is in the dispute handler, which catches it itself.
- The commented-out code is not modelled: the odd-count check in make-match, the add_player and update_team_stats routes, and the old schedule lookup route.
- Record lookups with plain GET routes (get_match, get_tournament) are store reads. They are modelled as inputs, not as operations.
- The join-team composites, the teams, player and notification services, the Discord bots, the join logger and the frontend are not part of this model.
- create_tournament overwrites a record already stored under the same id. The model returns the new record and does not model the overwrite.

## Findings

| source | as written | input that shows it | evidently intended | confidence | as-written member | corrected member |
|---|---|---|---|---|---|---|
| backend/services/schedule-service/schedule_service.py:36 | the duplicate-schedule check and the availability lookup (line 116) test whether the tournament id is a key of the nested tournament object | a schedule created for tournament "t1", round 1, is stored with tournament {tournamentId: "t1", name: ...}; "t1" is not a key of it, so a second create for "t1", round 1, is accepted and submit_availability for "t1", round 1, answers 404 | compare the nested tournamentId with the id, as get_schedules_by_tournament_id does (lines 83-87) | not executed | ScheduleService.KeyMembershipRoutes | ScheduleService.NestedIdRoutes |
