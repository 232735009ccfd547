/** The league table: one row per team, built from the finished matches and
    ranked by points, then goal difference, then goals scored. */
module Standings {
  import opened Models
  import opened Scores

  datatype Standing = Standing(
    teamId: nat, teamName: string,
    played: int, wins: int, draws: int, losses: int,
    goalsFor: int, goalsAgainst: int, goalDifference: int, points: int)

  /** A team's row before any match is counted. */
  function Zero(t: Team): Standing {
    Standing(t.id, t.name, 0, 0, 0, 0, 0, 0, 0, 0)
  }

  /** Counts one match for a side that scored `scored` and conceded `conceded`. */
  function Credit(s: Standing, scored: nat, conceded: nat): Standing {
    s.(played := s.played + 1,
       goalsFor := s.goalsFor + scored,
       goalsAgainst := s.goalsAgainst + conceded,
       wins := s.wins + (if scored > conceded then 1 else 0),
       draws := s.draws + (if scored == conceded then 1 else 0),
       losses := s.losses + (if scored < conceded then 1 else 0))
  }

  /** Counts one match for a row: as the home side if it is the home team,
      then as the away side if it is the away team. */
  function Apply(s: Standing, m: Match): Standing {
    var hg := HomeGoals(m.goals, m.homeTeamId);
    var ag := AwayGoals(m.goals, m.homeTeamId);
    var s1 := if s.teamId == m.homeTeamId then Credit(s, hg, ag) else s;
    if s1.teamId == m.awayTeamId then Credit(s1, ag, hg) else s1
  }

  /** A team's running row after the given matches, before the derived columns. */
  function Record(t: Team, ms: seq<Match>): (s: Standing)
    ensures s.teamId == t.id && s.teamName == t.name
    ensures s.played == s.wins + s.draws + s.losses
    ensures s.played >= 0 && s.wins >= 0 && s.draws >= 0 && s.losses >= 0
    ensures s.goalsFor >= 0 && s.goalsAgainst >= 0
    ensures s.goalDifference == 0 && s.points == 0
  {
    if ms == [] then Zero(t) else Apply(Record(t, ms[..|ms| - 1]), ms[|ms| - 1])
  }

  /** Fills in the derived columns. */
  function Finish(s: Standing): Standing {
    s.(goalDifference := s.goalsFor - s.goalsAgainst, points := s.wins * 3 + s.draws)
  }

  /** The finished row of a team. */
  function Row(t: Team, ms: seq<Match>): Standing {
    Finish(Record(t, ms))
  }

  /** The finished rows of the teams, in team order. */
  function Rows(teams: seq<Team>, ms: seq<Match>): (rows: seq<Standing>)
    ensures |rows| == |teams|
  {
    if teams == [] then [] else Rows(teams[..|teams| - 1], ms) + [Row(teams[|teams| - 1], ms)]
  }

  /** The finished rows of the teams whose id is in `ids`, in team order. */
  function RowsOf(teams: seq<Team>, ids: set<nat>, ms: seq<Match>): seq<Standing> {
    if teams == [] then []
    else RowsOf(teams[..|teams| - 1], ids, ms) + (if teams[|teams| - 1].id in ids then [Row(teams[|teams| - 1], ms)] else [])
  }

  function Ids(teams: seq<Team>): set<nat> {
    set i | 0 <= i < |teams| :: teams[i].id
  }

  predicate DistinctIds(teams: seq<Team>) {
    forall i, j | 0 <= i < j < |teams| :: teams[i].id != teams[j].id
  }

  /** Both teams of every match are in the team list. */
  predicate TeamsKnown(teams: seq<Team>, ms: seq<Match>) {
    forall k | 0 <= k < |ms| :: ms[k].homeTeamId in Ids(teams) && ms[k].awayTeamId in Ids(teams)
  }

  /** Every row satisfies the table's bookkeeping identities. */
  lemma RowIdentities(t: Team, ms: seq<Match>)
    ensures var r := Row(t, ms);
            && r.teamId == t.id && r.teamName == t.name
            && r.played == r.wins + r.draws + r.losses
            && r.points == 3 * r.wins + r.draws
            && r.goalDifference == r.goalsFor - r.goalsAgainst
  {
  }

  predicate Involves(m: Match, id: nat) {
    m.homeTeamId == id || m.awayTeamId == id
  }

  /** A team that played none of the matches has an all-zero row. */
  lemma {:induction false} UninvolvedTeamIsZero(t: Team, ms: seq<Match>)
    requires forall k | 0 <= k < |ms| :: !Involves(ms[k], t.id)
    ensures Row(t, ms) == Zero(t)
  {
    if ms != [] {
      UninvolvedTeamIsZero(t, ms[..|ms| - 1]);
    }
  }

  /** A team gains exactly one played match per match it takes part in on one
      side, and none for the others. */
  lemma {:induction false} PlayedCountsInvolvement(t: Team, ms: seq<Match>)
    requires forall k | 0 <= k < |ms| :: ms[k].homeTeamId != ms[k].awayTeamId
    ensures Row(t, ms).played == |set k | 0 <= k < |ms| && Involves(ms[k], t.id)|
  {
    if ms != [] {
      var n := |ms| - 1;
      PlayedCountsInvolvement(t, ms[..n]);
      var before := set k | 0 <= k < n && Involves(ms[..n][k], t.id);
      var after := set k | 0 <= k < |ms| && Involves(ms[k], t.id);
      if Involves(ms[n], t.id) {
        assert after == before + {n};
      } else {
        assert after == before;
      }
    }
  }

  // ---- Ranking ----

  /** The table's less-than: `a` comes strictly before `b`. */
  predicate Outranks(a: Standing, b: Standing) {
    || a.points > b.points
    || (a.points == b.points && a.goalDifference > b.goalDifference)
    || (a.points == b.points && a.goalDifference == b.goalDifference && a.goalsFor > b.goalsFor)
  }

  predicate RanksAtLeast(a: Standing, b: Standing) {
    !Outranks(b, a)
  }

  /** Non-increasing by (points, goal difference, goals for). */
  predicate SortedByRank(s: seq<Standing>) {
    forall i, j | 0 <= i < j < |s| :: RanksAtLeast(s[i], s[j])
  }

  /** Places a row before the first row it ranks at least as high as. */
  function Insert(x: Standing, s: seq<Standing>): (r: seq<Standing>)
    ensures multiset(r) == multiset(s) + multiset{x}
  {
    if s == [] then [x]
    else if RanksAtLeast(x, s[0]) then [x] + s
    else
      assert s == [s[0]] + s[1..];
      [s[0]] + Insert(x, s[1..])
  }

  lemma RanksTransitive(a: Standing, b: Standing, c: Standing)
    requires RanksAtLeast(a, b) && RanksAtLeast(b, c)
    ensures RanksAtLeast(a, c)
  {
  }

  /** Inserting into a ranked list keeps it ranked. */
  lemma {:induction false} InsertKeepsRanked(x: Standing, s: seq<Standing>)
    requires SortedByRank(s)
    ensures SortedByRank(Insert(x, s))
  {
    if s == [] {
    } else if RanksAtLeast(x, s[0]) {
      var r := [x] + s;
      forall i, j | 0 <= i < j < |r|
        ensures RanksAtLeast(r[i], r[j])
      {
        if i == 0 && j > 1 {
          RanksTransitive(x, s[0], s[j - 1]);
        }
      }
    } else {
      var tail := s[1..];
      assert SortedByRank(tail);
      InsertKeepsRanked(x, tail);
      var rest := Insert(x, tail);
      var r := [s[0]] + rest;
      forall i, j | 0 <= i < j < |r|
        ensures RanksAtLeast(r[i], r[j])
      {
        if i == 0 {
          var y := rest[j - 1];
          assert y in multiset(rest);
          if y != x {
            assert y in multiset(tail);
            var k :| 0 <= k < |tail| && tail[k] == y;
            assert s[k + 1] == y;
          }
        } else {
          assert r[i] == rest[i - 1] && r[j] == rest[j - 1];
        }
      }
    }
  }

  /** The ranked table: a permutation of the rows, sorted by rank. */
  function Ranked(s: seq<Standing>): (r: seq<Standing>)
    ensures multiset(r) == multiset(s)
    ensures SortedByRank(r)
  {
    if s == [] then []
    else
      assert s == [s[0]] + s[1..];
      var rest := Ranked(s[1..]);
      InsertKeepsRanked(s[0], rest);
      Insert(s[0], rest)
  }

  // ---- Goal balance ----

  function SumFor(rows: seq<Standing>): int {
    if rows == [] then 0 else SumFor(rows[..|rows| - 1]) + rows[|rows| - 1].goalsFor
  }

  function SumAgainst(rows: seq<Standing>): int {
    if rows == [] then 0 else SumAgainst(rows[..|rows| - 1]) + rows[|rows| - 1].goalsAgainst
  }

  lemma SumsSnoc(a: seq<Standing>, x: Standing)
    ensures SumFor(a + [x]) == SumFor(a) + x.goalsFor
    ensures SumAgainst(a + [x]) == SumAgainst(a) + x.goalsAgainst
  {
    assert (a + [x])[..|a|] == a;
  }

  /** What a team scores in a match, on whichever sides it played. */
  function ScoredIn(t: Team, m: Match): nat {
    (if t.id == m.homeTeamId then HomeGoals(m.goals, m.homeTeamId) else 0)
    + (if t.id == m.awayTeamId then AwayGoals(m.goals, m.homeTeamId) else 0)
  }

  /** What a team concedes in a match, on whichever sides it played. */
  function ConcededIn(t: Team, m: Match): nat {
    (if t.id == m.homeTeamId then AwayGoals(m.goals, m.homeTeamId) else 0)
    + (if t.id == m.awayTeamId then HomeGoals(m.goals, m.homeTeamId) else 0)
  }

  /** One more match adds to a row what its team scored and conceded in it. */
  lemma RowStep(t: Team, ms: seq<Match>, m: Match)
    ensures Row(t, ms + [m]).goalsFor == Row(t, ms).goalsFor + ScoredIn(t, m)
    ensures Row(t, ms + [m]).goalsAgainst == Row(t, ms).goalsAgainst + ConcededIn(t, m)
  {
    assert (ms + [m])[..|ms|] == ms;
  }

  /** What all the listed teams score in a match, and what they concede. */
  function ScoredBy(teams: seq<Team>, m: Match): nat {
    if teams == [] then 0 else ScoredBy(teams[..|teams| - 1], m) + ScoredIn(teams[|teams| - 1], m)
  }

  function ConcededBy(teams: seq<Team>, m: Match): nat {
    if teams == [] then 0 else ConcededBy(teams[..|teams| - 1], m) + ConcededIn(teams[|teams| - 1], m)
  }

  /** One more match adds to the column sums what the listed teams scored and
      conceded in it. */
  lemma {:induction false} SumsStep(teams: seq<Team>, ms: seq<Match>, m: Match)
    ensures SumFor(Rows(teams, ms + [m])) == SumFor(Rows(teams, ms)) + ScoredBy(teams, m)
    ensures SumAgainst(Rows(teams, ms + [m])) == SumAgainst(Rows(teams, ms)) + ConcededBy(teams, m)
  {
    if teams != [] {
      var n := |teams| - 1;
      var t := teams[n];
      SumsStep(teams[..n], ms, m);
      RowStep(t, ms, m);
      SumsSnoc(Rows(teams[..n], ms), Row(t, ms));
      SumsSnoc(Rows(teams[..n], ms + [m]), Row(t, ms + [m]));
    }
  }

  /** With distinct ids, the listed teams score the goals of the sides whose
      team is listed, and concede the goals of the opposite sides. */
  lemma {:induction false} ScoredByDistinct(teams: seq<Team>, m: Match)
    requires DistinctIds(teams)
    ensures var hg := HomeGoals(m.goals, m.homeTeamId);
            var ag := AwayGoals(m.goals, m.homeTeamId);
            var h := m.homeTeamId in Ids(teams);
            var a := m.awayTeamId in Ids(teams);
            && ScoredBy(teams, m) == (if h then hg else 0) + (if a then ag else 0)
            && ConcededBy(teams, m) == (if h then ag else 0) + (if a then hg else 0)
  {
    if teams != [] {
      var n := |teams| - 1;
      var t := teams[n];
      assert Ids(teams) == Ids(teams[..n]) + {t.id};
      assert t.id !in Ids(teams[..n]);
      ScoredByDistinct(teams[..n], m);
    }
  }

  lemma {:induction false} SumsBalanceRows(teams: seq<Team>, ms: seq<Match>)
    requires DistinctIds(teams) && TeamsKnown(teams, ms)
    ensures SumFor(Rows(teams, ms)) == SumAgainst(Rows(teams, ms))
  {
    if ms == [] {
      ZeroSums(teams);
    } else {
      var n := |ms| - 1;
      assert TeamsKnown(teams, ms[..n]);
      SumsBalanceRows(teams, ms[..n]);
      SumsStep(teams, ms[..n], ms[n]);
      ScoredByDistinct(teams, ms[n]);
      assert ms[..n] + [ms[n]] == ms;
    }
  }

  lemma {:induction false} ZeroSums(teams: seq<Team>)
    ensures SumFor(Rows(teams, [])) == 0 && SumAgainst(Rows(teams, [])) == 0
  {
    if teams != [] {
      var n := |teams| - 1;
      ZeroSums(teams[..n]);
      SumsSnoc(Rows(teams[..n], []), Row(teams[n], []));
    }
  }

  lemma {:induction false} SumsSplit(a: seq<Standing>, b: seq<Standing>)
    ensures SumFor(a + b) == SumFor(a) + SumFor(b)
    ensures SumAgainst(a + b) == SumAgainst(a) + SumAgainst(b)
  {
    if b != [] {
      var n := |b| - 1;
      SumsSplit(a, b[..n]);
      assert a + b == (a + b[..n]) + [b[n]];
      assert b == b[..n] + [b[n]];
      SumsSnoc(a + b[..n], b[n]);
      SumsSnoc(b[..n], b[n]);
    } else {
      assert a + b == a;
    }
  }

  /** Sums over the rows do not depend on their order. */
  lemma {:induction false} SumsOfPermutation(a: seq<Standing>, b: seq<Standing>)
    requires multiset(a) == multiset(b)
    ensures SumFor(a) == SumFor(b) && SumAgainst(a) == SumAgainst(b)
    decreases |a|
  {
    if a != [] {
      var n := |a| - 1;
      var x := a[n];
      assert a == a[..n] + [x];
      assert x in multiset(b);
      var k :| 0 <= k < |b| && b[k] == x;
      var rest := b[..k] + b[k + 1..];
      assert b == b[..k] + [x] + b[k + 1..];
      assert multiset(a) == multiset(a[..n]) + multiset{x};
      assert multiset(b) == multiset(b[..k]) + multiset{x} + multiset(b[k + 1..]);
      assert multiset(rest) == multiset(b[..k]) + multiset(b[k + 1..]);
      assert multiset(a[..n]) == multiset(a) - multiset{x};
      assert multiset(rest) == multiset(b) - multiset{x};
      SumsOfPermutation(a[..n], rest);
      SumsSplit(b[..k], [x]);
      SumsSplit(b[..k] + [x], b[k + 1..]);
      SumsSplit(b[..k], b[k + 1..]);
    }
  }

  /** Over a whole table every goal is scored by one row and conceded by
      another, so goals for and goals against sum to the same total. */
  lemma TableGoalsBalance(teams: seq<Team>, ms: seq<Match>, table: seq<Standing>)
    requires DistinctIds(teams) && TeamsKnown(teams, ms)
    requires multiset(table) == multiset(Rows(teams, ms))
    ensures SumFor(table) == SumAgainst(table)
  {
    SumsBalanceRows(teams, ms);
    SumsOfPermutation(table, Rows(teams, ms));
  }

  // ---- Collecting the rows in map order ----

  lemma {:induction false} RowsOfIgnoresAbsent(teams: seq<Team>, ids: set<nat>, p: nat, ms: seq<Match>)
    requires p !in Ids(teams)
    ensures RowsOf(teams, ids + {p}, ms) == RowsOf(teams, ids, ms)
  {
    if teams != [] {
      var n := |teams| - 1;
      assert Ids(teams) == Ids(teams[..n]) + {teams[n].id};
      RowsOfIgnoresAbsent(teams[..n], ids, p, ms);
    }
  }

  /** Dropping the last team keeps the ids distinct and leaves out its id. */
  lemma DistinctIdsInit(teams: seq<Team>)
    requires DistinctIds(teams) && teams != []
    ensures DistinctIds(teams[..|teams| - 1])
    ensures teams[|teams| - 1].id !in Ids(teams[..|teams| - 1])
  {
    var init := teams[..|teams| - 1];
    forall j | 0 <= j < |init| ensures init[j].id != teams[|teams| - 1].id {
      assert init[j] == teams[j];
    }
  }

  /** Taking the id of the last team adds its row at the end. */
  lemma RowsOfAddLast(teams: seq<Team>, ids: set<nat>, ms: seq<Match>)
    requires DistinctIds(teams) && teams != [] && teams[|teams| - 1].id !in ids
    ensures RowsOf(teams, ids + {teams[|teams| - 1].id}, ms) == RowsOf(teams, ids, ms) + [Row(teams[|teams| - 1], ms)]
  {
    var n := |teams| - 1;
    DistinctIdsInit(teams);
    RowsOfIgnoresAbsent(teams[..n], ids, teams[n].id, ms);
  }

  lemma MultisetAddThenAppend<T>(a: seq<T>, b: seq<T>, tail: seq<T>, x: T)
    requires multiset(a) == multiset(b) + multiset{x}
    ensures multiset(a + tail) == multiset(b + tail) + multiset{x}
  {
  }

  /** Taking one more id adds exactly the row of the team with that id. */
  lemma {:induction false} RowsOfAddOne(teams: seq<Team>, ids: set<nat>, i: nat, ms: seq<Match>)
    requires DistinctIds(teams) && i < |teams| && teams[i].id !in ids
    ensures multiset(RowsOf(teams, ids + {teams[i].id}, ms)) == multiset(RowsOf(teams, ids, ms)) + multiset{Row(teams[i], ms)}
  {
    var n := |teams| - 1;
    if i == n {
      RowsOfAddLast(teams, ids, ms);
    } else {
      var init := teams[..n];
      var p := teams[i].id;
      DistinctIdsInit(teams);
      assert init[i] == teams[i];
      assert teams[n].id != p;
      var tail := if teams[n].id in ids then [Row(teams[n], ms)] else [];
      assert RowsOf(teams, ids + {p}, ms) == RowsOf(init, ids + {p}, ms) + tail;
      assert RowsOf(teams, ids, ms) == RowsOf(init, ids, ms) + tail;
      RowsOfAddOne(init, ids, i, ms);
      MultisetAddThenAppend(RowsOf(init, ids + {p}, ms), RowsOf(init, ids, ms), tail, Row(teams[i], ms));
    }
  }

  lemma {:induction false} RowsOfNone(teams: seq<Team>, ms: seq<Match>)
    ensures RowsOf(teams, {}, ms) == []
  {
    if teams != [] {
      RowsOfNone(teams[..|teams| - 1], ms);
    }
  }

  lemma {:induction false} RowsOfAll(teams: seq<Team>, ids: set<nat>, ms: seq<Match>)
    requires Ids(teams) <= ids
    ensures RowsOf(teams, ids, ms) == Rows(teams, ms)
  {
    if teams != [] {
      var n := |teams| - 1;
      assert Ids(teams[..n]) <= Ids(teams);
      RowsOfAll(teams[..n], ids, ms);
    }
  }

  /** The running rows of all teams after the matches, keyed by team id. */
  ghost predicate RecordsAfter(standing: map<nat, Standing>, teams: seq<Team>, ms: seq<Match>) {
    && standing.Keys == Ids(teams)
    && forall j | 0 <= j < |teams| :: standing[teams[j].id] == Record(teams[j], ms)
  }

  /** One zero row per listed team. */
  method ZeroRows(teams: seq<Team>) returns (standing: map<nat, Standing>)
    requires DistinctIds(teams)
    ensures RecordsAfter(standing, teams, [])
  {
    standing := map[];
    for i := 0 to |teams|
      invariant standing.Keys == Ids(teams[..i])
      invariant forall j | 0 <= j < i :: standing[teams[j].id] == Zero(teams[j])
    {
      standing := standing[teams[i].id := Zero(teams[i])];
      assert Ids(teams[..i + 1]) == Ids(teams[..i]) + {teams[i].id};
    }
    assert teams[..|teams|] == teams;
  }

  /** Crediting the home row and then the away row of a keyed table is
      counting the match for every row. */
  lemma CreditBothSides(standing: map<nat, Standing>, m: Match, id: nat)
    requires m.homeTeamId in standing && m.awayTeamId in standing && id in standing
    requires forall k | k in standing :: standing[k].teamId == k
    ensures var hg := HomeGoals(m.goals, m.homeTeamId);
            var ag := AwayGoals(m.goals, m.homeTeamId);
            var s1 := standing[m.homeTeamId := Credit(standing[m.homeTeamId], hg, ag)];
            var s2 := s1[m.awayTeamId := Credit(s1[m.awayTeamId], ag, hg)];
            s2[id] == Apply(standing[id], m)
  {
  }

  /** Counts every match for its home team and then its away team. */
  method CountMatches(standing0: map<nat, Standing>, teams: seq<Team>, ms: seq<Match>) returns (standing: map<nat, Standing>)
    requires DistinctIds(teams) && TeamsKnown(teams, ms)
    requires RecordsAfter(standing0, teams, [])
    ensures RecordsAfter(standing, teams, ms)
  {
    standing := standing0;
    for k := 0 to |ms|
      invariant RecordsAfter(standing, teams, ms[..k])
    {
      var m := ms[k];
      assert ms[..k + 1][..k] == ms[..k];
      assert forall id | id in standing :: standing[id].teamId == id;
      var before := standing;
      var homeGoals, awayGoals := TallyScore(m.goals, m.homeTeamId);
      var home := standing[m.homeTeamId];
      standing := standing[m.homeTeamId := Credit(home, homeGoals, awayGoals)];
      var away := standing[m.awayTeamId];
      standing := standing[m.awayTeamId := Credit(away, awayGoals, homeGoals)];
      forall j | 0 <= j < |teams|
        ensures standing[teams[j].id] == Record(teams[j], ms[..k + 1])
      {
        CreditBothSides(before, m, teams[j].id);
      }
    }
    assert ms[..|ms|] == ms;
  }

  /** Fills in the derived columns while collecting the rows in the map's
      unspecified order. */
  method CollectRows(standing: map<nat, Standing>, teams: seq<Team>, ms: seq<Match>) returns (list: seq<Standing>)
    requires DistinctIds(teams) && RecordsAfter(standing, teams, ms)
    ensures multiset(list) == multiset(Rows(teams, ms))
  {
    list := [];
    var pending := standing.Keys;
    RowsOfNone(teams, ms);
    assert Ids(teams) - pending == {};
    while pending != {}
      invariant pending <= Ids(teams)
      invariant multiset(list) == multiset(RowsOf(teams, Ids(teams) - pending, ms))
      decreases pending
    {
      var p :| p in pending;
      var i :| 0 <= i < |teams| && teams[i].id == p;
      var s := standing[p];
      s := s.(goalDifference := s.goalsFor - s.goalsAgainst, points := s.wins * 3 + s.draws);
      assert s == Row(teams[i], ms);
      ghost var done := Ids(teams) - pending;
      RowsOfAddOne(teams, done, i, ms);
      assert done + {p} == Ids(teams) - (pending - {p});
      list := list + [s];
      pending := pending - {p};
    }
    assert Ids(teams) - pending == Ids(teams);
    RowsOfAll(teams, Ids(teams), ms);
  }

  /** Builds the table: a zero row per listed team, every finished match
      counted for its home and then its away team, the derived columns filled
      in, and the rows ranked by points, goal difference and goals for. */
  method LeagueStanding(teams: seq<Team>, ms: seq<Match>) returns (table: seq<Standing>)
    requires DistinctIds(teams) && TeamsKnown(teams, ms)
    ensures |table| == |teams|
    ensures multiset(table) == multiset(Rows(teams, ms))
    ensures SortedByRank(table)
  {
    var standing := ZeroRows(teams);
    standing := CountMatches(standing, teams, ms);
    var list := CollectRows(standing, teams, ms);
    table := Ranked(list);
    assert |multiset(table)| == |multiset(Rows(teams, ms))|;
  }
}
