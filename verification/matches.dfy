/** The match service: scheduling with a clash guard, the page count of the
    match list, result processing and the per-match report. */
module Matches {
  import opened AppErrors
  import opened Models
  import opened Scores
  import Query

  const Two64: int := 0x1_0000_0000_0000_0000

  /** A sum as Go's signed 64-bit arithmetic leaves it: brought back into
      range by wrapping around modulo 2^64. */
  function Wrap64(x: int): (r: int)
    ensures Query.MinInt64 <= r <= Query.MaxInt64
    ensures (x - r) % Two64 == 0
    ensures Query.MinInt64 <= x <= Query.MaxInt64 ==> r == x
  {
    (x - Query.MinInt64) % Two64 + Query.MinInt64
  }

  /** Go's integer division by a positive divisor, which truncates toward zero. */
  function QuotTrunc(a: int, b: int): (q: int)
    requires b > 0
    ensures a >= 0 ==> 0 <= a - q * b < b
    ensures a < 0 ==> q <= 0 && 0 <= q * b - a < b
  {
    if a >= 0 then a / b else -((-a) / b)
  }

  /** The page count as the list endpoint computes it: total + limit - 1 in
      64-bit arithmetic, then a truncating division; zero when the limit is
      not positive. Without overflow it is the intended ceiling; with
      overflow it is never positive. */
  function TotalPages(total: nat, limit: int): (pages: int)
    requires total <= Query.MaxInt64 && limit <= Query.MaxInt64
    ensures limit <= 0 ==> pages == 0
    ensures limit > 0 && total + limit - 1 <= Query.MaxInt64 ==> pages == PageCount(total, limit)
    ensures limit > 0 && total + limit - 1 > Query.MaxInt64 ==> total > 0 && pages <= 0
  {
    if limit > 0 then
      var sum := Wrap64(total + limit - 1);
      WrappedQuotient(total, limit, sum);
      QuotTrunc(sum, limit)
    else 0
  }

  /** The truncating quotient of the 64-bit sum: the page count when the sum
      fits, a number not above zero when it wraps. */
  lemma WrappedQuotient(total: nat, limit: int, sum: int)
    requires total <= Query.MaxInt64 && 0 < limit <= Query.MaxInt64
    requires sum == Wrap64(total + limit - 1)
    ensures total + limit - 1 <= Query.MaxInt64 ==> QuotTrunc(sum, limit) == PageCount(total, limit)
    ensures total + limit - 1 > Query.MaxInt64 ==> total > 0 && QuotTrunc(sum, limit) <= 0
  {
    if total + limit - 1 <= Query.MaxInt64 {
      PageCountIsCeiling(total, limit);
      CeilingIsUnique(total, limit, QuotTrunc(sum, limit), PageCount(total, limit));
    } else {
      assert sum == total + limit - 1 - Two64;
    }
  }

  /** The page count computed without any intermediate sum that could
      overflow: whole pages plus one for a partial last page. */
  function PageCount(total: nat, limit: int): nat {
    if limit > 0 then total / limit + (if total % limit == 0 then 0 else 1) else 0
  }

  lemma MulMonotone(a: int, b: int, k: int)
    requires a <= b && k > 0
    ensures a * k <= b * k
  {
    assert b * k - a * k == (b - a) * k;
  }

  /** The page count is the ceiling of total / limit: the last page is the
      first one that reaches the total, and there are never more pages than
      items. */
  lemma PageCountIsCeiling(total: nat, limit: int)
    ensures limit <= 0 ==> PageCount(total, limit) == 0
    ensures limit > 0 && total == 0 ==> PageCount(total, limit) == 0
    ensures limit > 0 && total > 0 ==>
              var tp := PageCount(total, limit);
              1 <= tp <= total && (tp - 1) * limit < total <= tp * limit
  {
    if limit > 0 {
      var q, r := total / limit, total % limit;
      assert total == q * limit + r && 0 <= r < limit;
      var tp := PageCount(total, limit);
      assert (tp - 1) * limit == tp * limit - limit;
      if r == 0 {
        assert tp == q;
        if total > 0 && q <= 0 {
          MulMonotone(q, 0, limit);
        }
      } else {
        assert tp == q + 1;
        assert tp * limit == q * limit + limit;
      }
      if total > 0 && tp > total {
        MulMonotone(total, tp - 1, limit);
        MulMonotone(1, limit, total);
      }
    }
  }

  /** The truncating quotient of total + limit - 1 by limit and the ceiling
      of total / limit are the same number. */
  lemma CeilingIsUnique(total: nat, limit: int, p: int, c: int)
    requires limit > 0
    requires 0 <= total + limit - 1 - p * limit < limit
    requires total > 0 ==> c >= 1 && (c - 1) * limit < total <= c * limit
    requires total == 0 ==> c == 0
    ensures p == c
  {
    assert (c - 1) * limit == c * limit - limit;
    assert (c + 1) * limit == c * limit + limit;
    if p < c {
      MulMonotone(p, c - 1, limit);
    } else if p > c {
      MulMonotone(c + 1, p, limit);
    }
  }

  /** With a limit of 2^63 - 1 and two matching rows, the sum wraps to
      -2^63 and the endpoint reports -1 pages where one page is meant. */
  lemma TotalPagesWrapsNegative()
    ensures TotalPages(2, Query.MaxInt64) == -1
    ensures PageCount(2, Query.MaxInt64) == 1
  {
    assert Wrap64(2 + Query.MaxInt64 - 1) == Query.MinInt64;
  }

  /** One entry of the report's goal list. */
  datatype GoalEntry = GoalEntry(playerId: nat, name: string, position: string, jersey: int, minute: string)

  /** The report's top scorer: the player's row and goal count in this match. */
  datatype TopScorer = TopScorer(playerId: nat, player: Scorer, goals: nat)

  datatype MatchReport = MatchReport(
    matchId: nat, kickoff: int, homeTeamId: nat, awayTeamId: nat,
    home: nat, away: nat, outcome: string,
    goals: seq<GoalEntry>, topScorer: Option<TopScorer>,
    homeWins: nat, awayWins: nat)

  /** The report's outcome text for a score line. */
  function OutcomeText(home: nat, away: nat): (t: string)
    ensures t == "Tim Home Menang" <==> home > away
    ensures t == "Tim Away Menang" <==> away > home
    ensures t == "Draw" <==> home == away
  {
    if home > away then "Tim Home Menang" else if away > home then "Tim Away Menang" else "Draw"
  }

  /** The text a result status is reported as. */
  function StatusOutcomeText(s: Status): string {
    match s
    case HomeWin => "Tim Home Menang"
    case AwayWin => "Tim Away Menang"
    case _ => "Draw"
  }

  /** The report's outcome text always agrees with the status result
      processing stores for the same goals. */
  lemma OutcomeTextAgreesWithStatus(goals: seq<Goal>, homeTeamId: nat)
    ensures OutcomeText(HomeGoals(goals, homeTeamId), AwayGoals(goals, homeTeamId))
         == StatusOutcomeText(ResultStatus(goals, homeTeamId))
  {
  }

  /** A processed match never carries the status the standings query selects
      (SELESAI): with the result status stored as written, result processing
      takes a match out of the league table. */
  lemma ProcessedMatchIsNotFinished(goals: seq<Goal>, homeTeamId: nat)
    ensures ResultStatus(goals, homeTeamId) != Selesai
    ensures ResultStatus(goals, homeTeamId) in {HomeWin, AwayWin, DrawResult}
  {
  }

  function EntryOf(g: Goal): GoalEntry {
    GoalEntry(g.scorerId, g.scorer.name, g.scorer.position, g.scorer.jersey, g.minute)
  }

  /** Number of goals a player scored. */
  function ScorerGoals(goals: seq<Goal>, playerId: nat): nat {
    if goals == [] then 0
    else ScorerGoals(goals[..|goals| - 1], playerId) + (if goals[|goals| - 1].scorerId == playerId then 1 else 0)
  }

  /** The per-player goal counts the report accumulates, in goal order. */
  function ScorerTally(goals: seq<Goal>): map<nat, nat> {
    if goals == [] then map[]
    else
      var m := ScorerTally(goals[..|goals| - 1]);
      var p := goals[|goals| - 1].scorerId;
      m[p := (if p in m then m[p] else 0) + 1]
  }

  /** The scorer rows the report keeps: the one of each player's latest goal. */
  function ScorerDetail(goals: seq<Goal>): map<nat, Scorer> {
    if goals == [] then map[]
    else ScorerDetail(goals[..|goals| - 1])[goals[|goals| - 1].scorerId := goals[|goals| - 1].scorer]
  }

  /** The tally holds exactly the players who scored, each with their goal count. */
  lemma {:induction false} ScorerTallyCounts(goals: seq<Goal>)
    ensures ScorerTally(goals).Keys == ScorerDetail(goals).Keys
    ensures forall p :: p in ScorerTally(goals) <==> ScorerGoals(goals, p) > 0
    ensures forall p | p in ScorerTally(goals) :: ScorerTally(goals)[p] == ScorerGoals(goals, p)
  {
    if goals != [] {
      ScorerTallyCounts(goals[..|goals| - 1]);
    }
  }

  lemma {:induction false} ScorerOfGoalScored(goals: seq<Goal>, i: nat)
    requires i < |goals|
    ensures ScorerGoals(goals, goals[i].scorerId) > 0
  {
    if i < |goals| - 1 {
      ScorerOfGoalScored(goals[..|goals| - 1], i);
    }
  }

  /** What the report promises of its top scorer: none without goals;
      otherwise a scorer whose goal count is the largest of the match, shown
      with the row of their latest goal. Among tied players any may be chosen. */
  ghost predicate IsTopScorer(goals: seq<Goal>, top: Option<TopScorer>) {
    && (top.None? <==> goals == [])
    && (top.Some? ==>
          && top.value.goals == ScorerGoals(goals, top.value.playerId)
          && top.value.playerId in ScorerDetail(goals)
          && top.value.player == ScorerDetail(goals)[top.value.playerId]
          && forall i | 0 <= i < |goals| :: ScorerGoals(goals, goals[i].scorerId) <= top.value.goals)
  }

  /** Scans the per-player counts in no fixed order, keeping the first count
      that beats the best so far. */
  method PickTopScorer(counts: map<nat, nat>, detail: map<nat, Scorer>) returns (top: Option<TopScorer>)
    requires counts.Keys <= detail.Keys
    requires forall p | p in counts :: counts[p] > 0
    ensures top.None? <==> counts == map[]
    ensures top.Some? ==> top.value.playerId in counts && top.value.goals == counts[top.value.playerId]
    ensures top.Some? ==> top.value.player == detail[top.value.playerId]
    ensures top.Some? ==> forall p | p in counts :: counts[p] <= top.value.goals
  {
    top := None;
    var topGoals := 0;
    var pending := counts.Keys;
    while pending != {}
      invariant pending <= counts.Keys
      invariant top.None? ==> topGoals == 0 && pending == counts.Keys
      invariant top.Some? ==> top.value.playerId in counts && top.value.goals == counts[top.value.playerId] == topGoals
      invariant top.Some? ==> top.value.player == detail[top.value.playerId]
      invariant forall p | p in counts.Keys - pending :: counts[p] <= topGoals
      decreases pending
    {
      var p :| p in pending;
      if counts[p] > topGoals {
        topGoals := counts[p];
        top := Some(TopScorer(p, detail[p], counts[p]));
      }
      pending := pending - {p};
    }
  }

  /** The report's single pass over the goals: the score, the per-player
      counts and rows, and the goal list. */
  method ScanGoals(goals: seq<Goal>, homeTeamId: nat)
    returns (homeScore: nat, awayScore: nat, scorerCount: map<nat, nat>, scorerDetail: map<nat, Scorer>, goalList: seq<GoalEntry>)
    ensures homeScore == HomeGoals(goals, homeTeamId) && awayScore == AwayGoals(goals, homeTeamId)
    ensures homeScore + awayScore == |goals|
    ensures scorerCount == ScorerTally(goals) && scorerDetail == ScorerDetail(goals)
    ensures |goalList| == |goals| && forall j | 0 <= j < |goals| :: goalList[j] == EntryOf(goals[j])
  {
    homeScore, awayScore := 0, 0;
    scorerCount, scorerDetail := map[], map[];
    goalList := [];
    for i := 0 to |goals|
      invariant homeScore == HomeGoals(goals[..i], homeTeamId)
      invariant awayScore == AwayGoals(goals[..i], homeTeamId)
      invariant homeScore + awayScore == i
      invariant scorerCount == ScorerTally(goals[..i])
      invariant scorerDetail == ScorerDetail(goals[..i])
      invariant |goalList| == i && forall j | 0 <= j < i :: goalList[j] == EntryOf(goals[j])
    {
      assert goals[..i + 1][..i] == goals[..i];
      var g := goals[i];
      if g.teamId == homeTeamId {
        homeScore := homeScore + 1;
      } else {
        awayScore := awayScore + 1;
      }
      scorerCount := scorerCount[g.scorerId := (if g.scorerId in scorerCount then scorerCount[g.scorerId] else 0) + 1];
      scorerDetail := scorerDetail[g.scorerId := g.scorer];
      goalList := goalList + [EntryOf(g)];
    }
    assert goals[..|goals|] == goals;
  }

  /** Every goal of the match names it and was scored for one of its teams. */
  predicate GoalsBelong(m: Match) {
    forall k | 0 <= k < |m.goals| ::
      m.goals[k].matchId == m.id && (m.goals[k].teamId == m.homeTeamId || m.goals[k].teamId == m.awayTeamId)
  }

  class MatchService {
    /** The match table, keyed by id; each match carries its goals. */
    var matches: map<nat, Match>
    /** The next id the store assigns. */
    var nextId: nat

    /** Ids are below the next id and every stored goal belongs to its match
        and was scored for one of its two teams. */
    ghost predicate Valid()
      reads this
    {
      && 0 < nextId
      && forall id | id in matches :: matches[id].id == id && 0 < id < nextId && GoalsBelong(matches[id])
    }

    /** The match with that id, if any. */
    function Lookup(id: nat): (r: Option<Match>)
      reads this
      ensures r.Some? <==> id in matches
      ensures r.Some? ==> r.value == matches[id]
    {
      if id in matches then Some(matches[id]) else None
    }

    constructor ()
      ensures Valid() && matches == map[] && nextId == 1
    {
      matches := map[];
      nextId := 1;
    }

    /** Whether the team already plays a match (home or away) at that instant. */
    predicate CheckConflict(teamId: nat, kickoff: int)
      reads this
    {
      exists id | id in matches :: (matches[id].homeTeamId == teamId || matches[id].awayTeamId == teamId)
                                   && matches[id].kickoff == kickoff
    }

    /** Matches the team won at home. */
    function CountHomeWins(teamId: nat): (n: nat)
      reads this
      ensures n > 0 <==> exists id | id in matches :: matches[id].homeTeamId == teamId && matches[id].status == HomeWin
    {
      var won := set id | id in matches && matches[id].homeTeamId == teamId && matches[id].status == HomeWin;
      assert forall id | id in matches && matches[id].homeTeamId == teamId && matches[id].status == HomeWin :: id in won;
      |won|
    }

    /** Matches the team won away. */
    function CountAwayWins(teamId: nat): (n: nat)
      reads this
      ensures n > 0 <==> exists id | id in matches :: matches[id].awayTeamId == teamId && matches[id].status == AwayWin
    {
      var won := set id | id in matches && matches[id].awayTeamId == teamId && matches[id].status == AwayWin;
      assert forall id | id in matches && matches[id].awayTeamId == teamId && matches[id].status == AwayWin :: id in won;
      |won|
    }

    /** Schedules a match. Both ids must be set and differ (checked before the
      store is read); then neither team may already play at that instant, the
      home team being checked first. The new match is DIJADWALKAN, the
      column's default, and has no goals. */
    method Create(kickoff: int, homeTeamId: nat, awayTeamId: nat) returns (r: Result<nat>)
      requires Valid()
      modifies this
      ensures Valid()
      ensures homeTeamId == 0 || awayTeamId == 0 ==>
                r == Err(NewValidationError("home_team_id dan away_team_id wajib diisi"))
      ensures homeTeamId != 0 && awayTeamId != 0 && homeTeamId == awayTeamId ==>
                r == Err(NewValidationError("home dan away team tidak boleh sama"))
      ensures homeTeamId != 0 && awayTeamId != 0 && homeTeamId != awayTeamId && old(CheckConflict(homeTeamId, kickoff)) ==>
                r == Err(NewConflictError("jadwal bentrok dengan pertandingan lain (tim home)"))
      ensures homeTeamId != 0 && awayTeamId != 0 && homeTeamId != awayTeamId && !old(CheckConflict(homeTeamId, kickoff))
              && old(CheckConflict(awayTeamId, kickoff)) ==>
                r == Err(NewConflictError("jadwal bentrok dengan pertandingan lain (tim away)"))
      ensures r.Err? ==> matches == old(matches) && nextId == old(nextId)
      ensures r.Ok? <==> homeTeamId != 0 && awayTeamId != 0 && homeTeamId != awayTeamId
                         && !old(CheckConflict(homeTeamId, kickoff)) && !old(CheckConflict(awayTeamId, kickoff))
      ensures r.Ok? ==> r.value == old(nextId) && r.value !in old(matches) && nextId == old(nextId) + 1
                        && matches == old(matches)[r.value := Match(r.value, kickoff, homeTeamId, awayTeamId, Dijadwalkan, [])]
    {
      if homeTeamId == 0 || awayTeamId == 0 {
        return Err(NewValidationError("home_team_id dan away_team_id wajib diisi"));
      }
      if homeTeamId == awayTeamId {
        return Err(NewValidationError("home dan away team tidak boleh sama"));
      }
      if CheckConflict(homeTeamId, kickoff) {
        return Err(NewConflictError("jadwal bentrok dengan pertandingan lain (tim home)"));
      }
      if CheckConflict(awayTeamId, kickoff) {
        return Err(NewConflictError("jadwal bentrok dengan pertandingan lain (tim away)"));
      }
      var id := nextId;
      matches := matches[id := Match(id, kickoff, homeTeamId, awayTeamId, Dijadwalkan, [])];
      nextId := nextId + 1;
      r := Ok(id);
    }

    /** Tallies a match's goals and stores HOME_WIN, AWAY_WIN or DRAW as its
      status; nothing else about the match changes. */
    method ProcessResult(matchId: nat) returns (r: Outcome)
      requires Valid()
      modifies this
      ensures Valid() && nextId == old(nextId)
      ensures matchId !in old(matches) ==>
                r == Fail(NewNotFoundError("pertandingan tidak ditemukan")) && matches == old(matches)
      ensures matchId in old(matches) ==>
                var m := old(matches)[matchId];
                r == Done && matches == old(matches)[matchId := m.(status := ResultStatus(m.goals, m.homeTeamId))]
    {
      if matchId !in matches {
        return Fail(NewNotFoundError("pertandingan tidak ditemukan"));
      }
      var m := matches[matchId];
      assert m.id == matchId;
      var homeScore, awayScore := TallyScore(m.goals, m.homeTeamId);
      var status;
      if homeScore > awayScore {
        status := HomeWin;
      } else if awayScore > homeScore {
        status := AwayWin;
      } else {
        status := DrawResult;
      }
      matches := matches[matchId := m.(status := status)];
      r := Done;
    }

    /** The match report: score by the same tally as result processing, the
      outcome text, one goal entry per goal in goal order, the top scorer, and
      the home team's home wins and the away team's away wins. */
    method Report(matchId: nat) returns (r: Result<MatchReport>)
      ensures matchId !in matches ==> r == Err(NewNotFoundError("match tidak ditemukan"))
      ensures matchId in matches <==> r.Ok?
      ensures r.Ok? ==>
                var m := matches[matchId];
                var rep := r.value;
                && rep.matchId == m.id && rep.kickoff == m.kickoff
                && rep.homeTeamId == m.homeTeamId && rep.awayTeamId == m.awayTeamId
                && rep.home == HomeGoals(m.goals, m.homeTeamId)
                && rep.away == AwayGoals(m.goals, m.homeTeamId)
                && rep.home + rep.away == |m.goals|
                && rep.outcome == OutcomeText(rep.home, rep.away)
                && |rep.goals| == |m.goals|
                && (forall i | 0 <= i < |m.goals| :: rep.goals[i] == EntryOf(m.goals[i]))
                && IsTopScorer(m.goals, rep.topScorer)
                && rep.homeWins == CountHomeWins(m.homeTeamId)
                && rep.awayWins == CountAwayWins(m.awayTeamId)
    {
      if matchId !in matches {
        return Err(NewNotFoundError("match tidak ditemukan"));
      }
      var m := matches[matchId];
      var goals := m.goals;
      var homeScore, awayScore, scorerCount, scorerDetail, goalList := ScanGoals(goals, m.homeTeamId);
      ScorerTallyCounts(goals);
      var top := PickTopScorer(scorerCount, scorerDetail);
      if top.Some? {
        forall i | 0 <= i < |goals|
          ensures ScorerGoals(goals, goals[i].scorerId) <= top.value.goals
        {
          ScorerOfGoalScored(goals, i);
        }
      }
      if goals != [] {
        ScorerOfGoalScored(goals, 0);
      }
      var homeWins := CountHomeWins(m.homeTeamId);
      var awayWins := CountAwayWins(m.awayTeamId);
      var finalStatus := if homeScore > awayScore then "Tim Home Menang"
                         else if awayScore > homeScore then "Tim Away Menang"
                         else "Draw";
      r := Ok(MatchReport(m.id, m.kickoff, m.homeTeamId, m.awayTeamId, homeScore, awayScore, finalStatus,
                          goalList, top, homeWins, awayWins));
    }
  }
}
