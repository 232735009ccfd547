/** The match view the list and detail endpoints return: identity, status,
    the goals in recorded order and the score by the shared tally. */
module MatchDto {
  import opened Models
  import opened Scores

  datatype GoalDto = GoalDto(id: nat, minute: string, teamId: nat, scorerId: nat, scorer: Scorer)

  datatype MatchDto = MatchDto(id: nat, status: string, homeTeamId: nat, awayTeamId: nat,
                               goals: seq<GoalDto>, homeScore: nat, awayScore: nat)

  function GoalDtoOf(g: Goal): GoalDto {
    GoalDto(g.id, g.minute, g.teamId, g.scorerId, g.scorer)
  }

  /** What the view of a match is: everything copied, the score tallied. */
  function DtoOf(m: Match): MatchDto {
    MatchDto(m.id, StatusText(m.status), m.homeTeamId, m.awayTeamId,
             seq(|m.goals|, i requires 0 <= i < |m.goals| => GoalDtoOf(m.goals[i])),
             HomeGoals(m.goals, m.homeTeamId), AwayGoals(m.goals, m.homeTeamId))
  }

  /** The view's score accounts for every goal exactly once, and its goal
      list is the match's goals, one for one, in order. */
  lemma DtoAccountsForGoals(m: Match)
    ensures DtoOf(m).homeScore + DtoOf(m).awayScore == |DtoOf(m).goals| == |m.goals|
    ensures forall i | 0 <= i < |m.goals| :: DtoOf(m).goals[i].id == m.goals[i].id
                                          && DtoOf(m).goals[i].teamId == m.goals[i].teamId
    ensures DtoOf(m).id == m.id
    ensures Canonical(m.status) ==> ParseStatus(DtoOf(m).status) == m.status
  {
    TallySplitsGoals(m.goals, m.homeTeamId);
    if Canonical(m.status) {
      StatusRoundTrip(m.status);
    }
  }

  /** Tallies the goals, then copies them one by one. */
  method ToMatchDto(m: Match) returns (d: MatchDto)
    ensures d == DtoOf(m)
    ensures d.homeScore + d.awayScore == |d.goals| == |m.goals|
  {
    var homeScore, awayScore := TallyScore(m.goals, m.homeTeamId);
    var goals: seq<GoalDto> := [];
    for i := 0 to |m.goals|
      invariant |goals| == i && forall j | 0 <= j < i :: goals[j] == GoalDtoOf(m.goals[j])
    {
      goals := goals + [GoalDtoOf(m.goals[i])];
    }
    d := MatchDto(m.id, StatusText(m.status), m.homeTeamId, m.awayTeamId, goals, homeScore, awayScore);
  }

  /** Converts a list of matches, keeping length and order. */
  method ToMatchDtoList(list: seq<Match>) returns (result: seq<MatchDto>)
    ensures |result| == |list|
    ensures forall i | 0 <= i < |list| :: result[i] == DtoOf(list[i])
  {
    result := [];
    for i := 0 to |list|
      invariant |result| == i && forall j | 0 <= j < i :: result[j] == DtoOf(list[j])
    {
      var d := ToMatchDto(list[i]);
      result := result + [d];
    }
  }
}
