/** Goal admission: the ordered guard chain a goal passes before it is stored
    against its match, and the recogniser for the minute text. */
module Goals {
  import opened Text
  import opened AppErrors
  import opened Models
  import opened Scores
  import opened Matches

  /** A regulation minute: one digit, a two-digit number from 10 to 89, or 90. */
  predicate IsRegularMinute(s: string) {
    || (|s| == 1 && IsDigit(s[0]))
    || (|s| == 2 && '1' <= s[0] <= '8' && IsDigit(s[1]))
    || s == "90"
  }

  /** Stoppage time: "45+" or "90+" followed by one or more digits. */
  predicate IsStoppageMinute(s: string) {
    && |s| >= 4
    && (s[..3] == "45+" || s[..3] == "90+")
    && AllDigits(s[3..])
  }

  /** The minute formats a goal may carry. */
  predicate IsValidMinute(s: string) {
    IsRegularMinute(s) || IsStoppageMinute(s)
  }

  /** The regulation forms are exactly the canonical decimal texts of 0 to 90. */
  lemma RegularMinuteIsDecimalUpTo90(s: string)
    ensures IsRegularMinute(s) <==> exists n: nat | n <= 90 :: s == Decimal(n)
  {
    if IsRegularMinute(s) {
      assert AllDigits(s);
      CanonicalDigitsAreDecimal(s);
      var n := DigitsValue(s);
      if |s| == 2 {
        assert s[..1][..0] == [];
        assert DigitsValue(s[..1]) == DigitValue(s[0]);
        assert n == DigitValue(s[0]) * 10 + DigitValue(s[1]);
      }
      assert n <= 90 && s == Decimal(n);
    }
    if exists n: nat | n <= 90 :: s == Decimal(n) {
      var n: nat :| n <= 90 && s == Decimal(n);
      DecimalIsCanonical(n);
      if n >= 10 {
        assert s == [DigitChar(n / 10)] + [DigitChar(n % 10)];
        if n / 10 == 9 {
          assert n == 90;
        }
      }
    }
  }

  /** The stoppage forms are a base of 45 or 90, a plus sign and a digit string. */
  lemma StoppageMinuteShape(s: string)
    ensures IsStoppageMinute(s) <==>
              exists base: nat, extra: string | base in {45, 90} && |extra| >= 1 && AllDigits(extra)
                :: s == Decimal(base) + "+" + extra
  {
    assert Decimal(45) == "45" && Decimal(90) == "90";
    if IsStoppageMinute(s) {
      var base: nat := if s[..3] == "45+" then 45 else 90;
      assert s == Decimal(base) + "+" + s[3..];
    }
  }

  lemma MinuteExamples()
    ensures IsValidMinute("0") && IsValidMinute("45") && IsValidMinute("90")
    ensures IsValidMinute("45+2") && IsValidMinute("90+5")
    ensures !IsValidMinute("91") && !IsValidMinute("-1") && !IsValidMinute("abc")
    ensures !IsValidMinute("45+") && !IsValidMinute("05")
  {
    assert "45+2"[..3] == "45+" && "90+5"[..3] == "90+";
  }

  /** Statuses during which a goal cannot be recorded. */
  predicate IsBlockedStatus(s: Status) {
    StatusText(s) in {"DIJADWALKAN", "SELESAI", "DIBATALKAN"}
  }

  const MinuteMessage := "format menit tidak valid. Gunakan angka 0–90 atau hanya 45+X / 90+X (contoh: 45+2, 90+3)"

  /** The guard chain, given the goal and the result of looking its match up.
      The ids are checked first, then the match must exist and the goal's
      team must play in it, then the minute, then the match's status. */
  function CheckGoal(g: Goal, found: Option<Match>): (r: Outcome)
    ensures r.Done? <==>
              && g.scorerId != 0 && g.matchId != 0 && g.teamId != 0
              && found.Some?
              && (g.teamId == found.value.homeTeamId || g.teamId == found.value.awayTeamId)
              && IsValidMinute(g.minute)
              && !IsBlockedStatus(found.value.status)
    ensures r.Fail? ==> r.error.code in {400, 404}
    ensures r.Fail? && r.error.code == 404 <==> g.scorerId != 0 && g.matchId != 0 && g.teamId != 0 && found.None?
    ensures (&& g.scorerId != 0 && g.matchId != 0 && g.teamId != 0 && found.Some?
             && (g.teamId == found.value.homeTeamId || g.teamId == found.value.awayTeamId)
             && !IsValidMinute(g.minute))
            ==> r == Fail(NewValidationError(MinuteMessage))
  {
    if g.scorerId == 0 then Fail(NewValidationError("pencetak gol wajib diisi"))
    else if g.matchId == 0 then Fail(NewValidationError("match_id wajib diisi"))
    else if g.teamId == 0 then Fail(NewValidationError("team_id wajib diisi"))
    else if found.None? then Fail(NewNotFoundError("pertandingan tidak ditemukan"))
    else if g.teamId != found.value.homeTeamId && g.teamId != found.value.awayTeamId then
      Fail(NewValidationError("team pencetak gol tidak sesuai dengan tim yang bertanding"))
    else if !IsValidMinute(g.minute) then Fail(NewValidationError(MinuteMessage))
    else if IsBlockedStatus(found.value.status) then
      Fail(NewValidationError("tidak dapat menambahkan gol karena status pertandingan: " + StatusText(found.value.status)))
    else Done
  }

  /** A recorded goal adds one to the side of its team and nothing to the other. */
  lemma GoalAddsToItsSide(goals: seq<Goal>, g: Goal, homeTeamId: nat)
    ensures HomeGoals(goals + [g], homeTeamId) == HomeGoals(goals, homeTeamId) + (if g.teamId == homeTeamId then 1 else 0)
    ensures AwayGoals(goals + [g], homeTeamId) == AwayGoals(goals, homeTeamId) + (if g.teamId == homeTeamId then 0 else 1)
  {
    assert (goals + [g])[..|goals|] == goals;
  }

  /** The goal service writes into the match service's store, so a goal it
      admits is seen by result processing and by the report. */
  class GoalService {
    /** The match store shared with the match service. */
    const store: MatchService
    /** The id the store gives the next goal. */
    var nextGoalId: nat

    ghost predicate Valid()
      reads this, store
    {
      store.Valid()
    }

    constructor (matchStore: MatchService)
      requires matchStore.Valid()
      ensures Valid() && store == matchStore && nextGoalId == 1
    {
      store := matchStore;
      nextGoalId := 1;
    }

    /** Admits a goal: on success exactly one goal is appended to its match,
      which adds one to its side's tally; the match's status and every other
      match stay as they were. */
    method AddGoal(g: Goal) returns (r: Outcome)
      requires Valid()
      modifies this, store
      ensures Valid() && store.nextId == old(store.nextId)
      ensures r == CheckGoal(g, old(store.Lookup(g.matchId)))
      ensures r.Fail? ==> store.matches == old(store.matches) && nextGoalId == old(nextGoalId)
      ensures r.Done? ==>
                var m := old(store.matches)[g.matchId];
                && store.matches == old(store.matches)[g.matchId := m.(goals := m.goals + [g.(id := old(nextGoalId))])]
                && nextGoalId == old(nextGoalId) + 1
                && HomeGoals(store.matches[g.matchId].goals, m.homeTeamId)
                   == HomeGoals(m.goals, m.homeTeamId) + (if g.teamId == m.homeTeamId then 1 else 0)
                && AwayGoals(store.matches[g.matchId].goals, m.homeTeamId)
                   == AwayGoals(m.goals, m.homeTeamId) + (if g.teamId == m.homeTeamId then 0 else 1)
    {
      r := CheckGoal(g, store.Lookup(g.matchId));
      if r.Done? {
        var m := store.matches[g.matchId];
        var stored := g.(id := nextGoalId);
        GoalAddsToItsSide(m.goals, stored, m.homeTeamId);
        store.matches := store.matches[g.matchId := m.(goals := m.goals + [stored])];
        nextGoalId := nextGoalId + 1;
      }
    }
  }
}
