/** The stored entities shared by the match, goal, standing and player code. */
module Models {

  /** Status of a match. The column's enumeration is DIJADWALKAN (scheduled),
      SEDANG BERLANGSUNG (in progress), SELESAI (finished) and DIBATALKAN
      (cancelled); result processing writes HOME_WIN, AWAY_WIN and DRAW; any
      other text a client stores is kept as Other. */
  datatype Status =
    | Dijadwalkan
    | SedangBerlangsung
    | Selesai
    | Dibatalkan
    | HomeWin
    | AwayWin
    | DrawResult
    | Other(text: string)

  function StatusText(s: Status): string {
    match s
    case Dijadwalkan => "DIJADWALKAN"
    case SedangBerlangsung => "SEDANG BERLANGSUNG"
    case Selesai => "SELESAI"
    case Dibatalkan => "DIBATALKAN"
    case HomeWin => "HOME_WIN"
    case AwayWin => "AWAY_WIN"
    case DrawResult => "DRAW"
    case Other(t) => t
  }

  predicate IsKnownStatusText(t: string) {
    t in {"DIJADWALKAN", "SEDANG BERLANGSUNG", "SELESAI", "DIBATALKAN", "HOME_WIN", "AWAY_WIN", "DRAW"}
  }

  /** Reads a stored status string. */
  function ParseStatus(t: string): (s: Status)
    ensures StatusText(s) == t
    ensures s.Other? <==> !IsKnownStatusText(t)
  {
    if t == "DIJADWALKAN" then Dijadwalkan
    else if t == "SEDANG BERLANGSUNG" then SedangBerlangsung
    else if t == "SELESAI" then Selesai
    else if t == "DIBATALKAN" then Dibatalkan
    else if t == "HOME_WIN" then HomeWin
    else if t == "AWAY_WIN" then AwayWin
    else if t == "DRAW" then DrawResult
    else Other(t)
  }

  /** A status value is canonical when an Other never hides a known text. */
  predicate Canonical(s: Status) {
    s.Other? ==> !IsKnownStatusText(s.text)
  }

  /** Writing a canonical status and reading it back gives the same status. */
  lemma StatusRoundTrip(s: Status)
    requires Canonical(s)
    ensures ParseStatus(StatusText(s)) == s
  {
  }

  /** A team row as the team lookup returns it; `deleted` is the soft-delete mark. */
  datatype Team = Team(id: nat, name: string, deleted: bool)

  /** The scorer's player row, preloaded with a goal. */
  datatype Scorer = Scorer(name: string, position: string, jersey: int, height: int, weight: int)

  datatype Goal = Goal(id: nat, matchId: nat, teamId: nat, scorerId: nat, minute: string, scorer: Scorer)

  /** A match row with its goals in the order they were recorded. The kickoff
      time is an instant in seconds. */
  datatype Match = Match(id: nat, kickoff: int, homeTeamId: nat, awayTeamId: nat, status: Status, goals: seq<Goal>)
}
