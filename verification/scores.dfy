/** The score tally shared by result processing, the match report, the match
    DTO and the league table: a goal counts for the home side when its team is
    the home team, and for the away side otherwise. */
module Scores {
  import opened Models

  /** Goals credited to the home side. */
  function HomeGoals(goals: seq<Goal>, homeTeamId: nat): (n: nat)
    ensures n <= |goals|
  {
    if goals == [] then 0
    else HomeGoals(goals[..|goals| - 1], homeTeamId) + (if goals[|goals| - 1].teamId == homeTeamId then 1 else 0)
  }

  /** Goals credited to the away side: every goal not scored for the home team. */
  function AwayGoals(goals: seq<Goal>, homeTeamId: nat): (n: nat)
    ensures n <= |goals|
  {
    if goals == [] then 0
    else AwayGoals(goals[..|goals| - 1], homeTeamId) + (if goals[|goals| - 1].teamId != homeTeamId then 1 else 0)
  }

  /** Every goal is credited to exactly one side. */
  lemma {:induction false} TallySplitsGoals(goals: seq<Goal>, homeTeamId: nat)
    ensures HomeGoals(goals, homeTeamId) + AwayGoals(goals, homeTeamId) == |goals|
  {
    if goals != [] {
      TallySplitsGoals(goals[..|goals| - 1], homeTeamId);
    }
  }

  /** When every goal belongs to one of two distinct teams, the away tally is
      exactly the goals scored for the away team. */
  lemma {:induction false} AwayGoalsAreAwayTeamGoals(goals: seq<Goal>, homeTeamId: nat, awayTeamId: nat)
    requires homeTeamId != awayTeamId
    requires forall i | 0 <= i < |goals| :: goals[i].teamId == homeTeamId || goals[i].teamId == awayTeamId
    ensures AwayGoals(goals, homeTeamId) == HomeGoals(goals, awayTeamId)
  {
    if goals != [] {
      AwayGoalsAreAwayTeamGoals(goals[..|goals| - 1], homeTeamId, awayTeamId);
    }
  }

  /** The three-way outcome of a score line. */
  function Outcome(home: nat, away: nat): (s: Status)
    ensures s == HomeWin <==> home > away
    ensures s == AwayWin <==> away > home
    ensures s == DrawResult <==> home == away
  {
    if home > away then HomeWin else if away > home then AwayWin else DrawResult
  }

  /** The status result processing stores for a match with these goals. */
  function ResultStatus(goals: seq<Goal>, homeTeamId: nat): (s: Status)
    ensures s == HomeWin <==> HomeGoals(goals, homeTeamId) > AwayGoals(goals, homeTeamId)
    ensures s == AwayWin <==> AwayGoals(goals, homeTeamId) > HomeGoals(goals, homeTeamId)
    ensures s == DrawResult <==> HomeGoals(goals, homeTeamId) == AwayGoals(goals, homeTeamId)
  {
    Outcome(HomeGoals(goals, homeTeamId), AwayGoals(goals, homeTeamId))
  }

  /** Counts both sides of a match in one pass over its goals. */
  method TallyScore(goals: seq<Goal>, homeTeamId: nat) returns (home: nat, away: nat)
    ensures home == HomeGoals(goals, homeTeamId) && away == AwayGoals(goals, homeTeamId)
    ensures home + away == |goals|
  {
    home, away := 0, 0;
    for i := 0 to |goals|
      invariant home == HomeGoals(goals[..i], homeTeamId)
      invariant away == AwayGoals(goals[..i], homeTeamId)
      invariant home + away == i
    {
      assert goals[..i + 1][..i] == goals[..i];
      if goals[i].teamId == homeTeamId {
        home := home + 1;
      } else {
        away := away + 1;
      }
    }
    assert goals[..|goals|] == goals;
  }
}
