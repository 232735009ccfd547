# Football league backend — a verified model of its business logic

This is a Dafny model of the business logic of a football-league REST backend. The backend is written in Go. It stores teams, players, matches, goals and users, and it exposes:

- match scheduling, result processing, a per-match report and a league table;
- goal admission;
- a player roster with transfers;
- list queries with pagination, sorting and `filter[field][op]` filters;
- a JWT-based login with rotating refresh tokens;
- an authentication gate and two role gates in front of the routes.

The stores become in-memory maps held by classes whose methods update them. Each GORM query the services rely on becomes a predicate over those maps. Examples are the schedule-clash check, the home/away win counts and the jersey lookup.

Modules, one per file:

| module | file | models |
|---|---|---|
| `Text` | text.dfy | decimal digits, ASCII case mapping, splitting on a separator |
| `AppErrors` | errors.dfy | the error taxonomy: kinds, status codes, constructors |
| `Query` | query.dfy | list-query defaults, `page`/`limit`/`sort`/`order` parsing, filter keys, WHERE clauses |
| `Models` | models.dfy | the stored entities and the match status vocabulary |
| `Scores` | scores.dfy | the goal tally shared by every match view and the three-way outcome |
| `Matches` | matches.dfy | scheduling, page count, result processing, the match report with its top scorer |
| `MatchDto` | match_dto.dfy | the match view returned by the list and detail endpoints |
| `Standings` | standings.dfy | the league table: per-team rows, derived columns, the ranking sort |
| `Goals` | goals.dfy | the goal guard chain and the minute recogniser |
| `Players` | players.dfy | the roster: create, update, delete, transfer, jersey uniqueness |
| `Auth` | auth.dfy | users, token versions, refresh-token store; register, login, refresh, logout |
| `Middleware` | middleware.dfy | the bearer-token authentication decision, the admin-only and role-list gates |

Inputs the code cannot see become parameters:

- **Signing and hashing:** `sign` turns claims into a token, and `parse` yields the claims of a token whose signature verifies. `matches` is the bcrypt comparison, and `hash` is the outcome of hashing.
- **Clock and randomness:** `now` is the current instant in whole seconds, and `jti` is the random token id.
- **Transfer write failure:** the failure of the player update at the end of a transfer is a boolean.

The match status is a datatype covering four groups:

- the column's enumeration: DIJADWALKAN, SEDANG BERLANGSUNG, SELESAI, DIBATALKAN;
- the three texts result processing writes: HOME_WIN, AWAY_WIN, DRAW;
- an `Other` case for anything else.

The standings query selects SELESAI, while result processing overwrites the status with HOME_WIN, AWAY_WIN or DRAW. In the model, where the status field holds any status, a processed match therefore no longer reaches the league table; `Matches.ProcessedMatchIsNotFinished` states this. The database column itself only admits its four enumeration values (see "## Left out").

## Model

| member | source | states |
|---|---|---|
| AppErrors.NewValidationError | internal/errors/app_error.go:12-14 | code 400, kind Validation, and the error text is the message unchanged |
| AppErrors.NewNotFoundError | internal/errors/app_error.go:16-18 | code 404, kind NotFound, and the error text is the message unchanged |
| AppErrors.NewConflictError | internal/errors/app_error.go:20-22 | code 409, kind Conflict, and the error text is the message unchanged |
| AppErrors.NewInternalError | internal/errors/app_error.go:24-26 | code 500, kind Internal, and the error text is the message unchanged |
| AppErrors.NewUnauthorizedError | internal/errors/app_error.go:28-30 | code 401, kind Unauthorized, and the error text is the message unchanged |
| AppErrors.KindOfStatus | internal/errors/app_error.go:12-30 | a status code read back as a kind maps back to that same code |
| AppErrors.StatusIdentifiesKind | internal/errors/app_error.go:12-30 | the five kinds have pairwise different codes, so the code identifies the kind |
| Text.ToUpper | internal/utils/query.go:68 | ASCII upper-casing keeps the length and maps each character on its own |
| Text.ToUpperIdempotent | internal/middleware/rbac.go:19 | upper-casing twice is the same as upper-casing once |
| Text.Split | internal/utils/query.go:114 | splitting yields at least one piece; no piece contains the separator; a string without it yields itself |
| Text.SplitJoin | internal/utils/query.go:114 | joining the pieces with the separator gives back the original string |
| Query.NewQueryParams | internal/utils/query.go:34-42 | the defaults are page 1, limit 20, sort "id", order ASC and no filters |
| Query.Get | internal/utils/query.go:51 | a key with at least one value gives its first value; a missing key or one without values gives "" |
| Query.Atoi | internal/utils/query.go:52 | a parsed integer always lies within the signed 64-bit range |
| Query.AtoiDecimal | internal/utils/query.go:52 | every 64-bit natural number written in decimal parses back to itself |
| Query.PositiveOr | internal/utils/query.go:51-61 | the value replaces the default exactly when it parses to an integer above zero |
| Query.NormalisedOrder | internal/utils/query.go:67-72 | the order is the upper-cased value when that is ASC or DESC, otherwise the default |
| Query.FindSep | internal/utils/query.go:80 | the result is the first position of "][" at or after the start, or none when there is none |
| Query.SplitPairSpec | internal/utils/query.go:80-83 | a key body splits exactly when "][" occurs once; the two parts rebuild it and contain no separator |
| Query.ParseFilterKey | internal/utils/query.go:74-85 | the (field, operator) of a key that starts with "filter[" and, after one trailing "]" is dropped, holds "][" exactly once |
| Query.ParseFilterKeyShape | internal/utils/query.go:74-85 | a key without the "filter[" prefix names no filter; a key that names one is rebuilt from its field and operator, with or without the closing bracket, and neither part contains "][" |
| Query.ParseFilterKeyRoundTrip | internal/utils/query.go:74-85 | parsing `filter[field][op]` gives back field and operator when neither contains "][" |
| Query.ParseFromValues | internal/utils/query.go:48-92 | page and limit are replaced only by positive integers, so both stay at least 1; sort takes any non-empty value; order is always ASC or DESC; the filters are as ParseFilters states |
| Query.Store | internal/utils/query.go:86-89 | the pair gets the new value, its field's map being created when missing; every other pair keeps its presence and value |
| Query.ParseFilters | internal/utils/query.go:74-90 | every well-formed filter key has an entry; every entry is the first value of some key naming it; nothing else is stored |
| Query.ClauseFor | internal/utils/query.go:98-117 | a clause exists exactly for the eight known operators; `like` wraps the value in %...%; `in` binds the comma-split list |
| Query.ClausesAlong | internal/utils/query.go:96-119 | visiting filter entries never yields more clauses than entries |
| Query.ClausesAlongSpec | internal/utils/query.go:96-119 | every clause comes from a visited entry with a known operator, and every such entry contributes its clause |
| Query.EnumeratedClauses | internal/utils/query.go:95-120 | whatever order the pairs are visited in, the clauses are those of the entries with a known operator: each clause comes from an entry, each such entry adds its clause |
| Query.ApplyFilters | internal/utils/query.go:95-120 | every returned clause is the clause of some filter entry, and every entry with a known operator has its clause returned; the visit covers every (field, operator) pair exactly once, in some order |
| Query.ApplyFieldFilters | internal/utils/query.go:97-118 | one field's operators are each visited once after the entries already visited, extending the clause list accordingly |
| Models.ParseStatus | internal/models/match.go:23 | reading a status text gives a status that writes back as that text; Other exactly for unknown texts |
| Models.StatusRoundTrip | internal/models/match.go:23 | writing a canonical status and reading it back gives the same status |
| Scores.HomeGoals | internal/service/match_service.go:115-120 | goals whose team is the home team; never more than the goals |
| Scores.AwayGoals | internal/service/match_service.go:115-120 | every goal not scored for the home team; never more than the goals |
| Scores.ResultStatus | internal/service/match_service.go:112-129 | HOME_WIN iff the home tally is larger, AWAY_WIN iff the away tally is larger, DRAW iff they are equal |
| Scores.TallySplitsGoals | internal/service/match_service.go:112-121 | home goals plus away goals is the number of goals |
| Scores.AwayGoalsAreAwayTeamGoals | internal/service/match_service.go:115-120 | when every goal belongs to one of two distinct teams, the away tally is the away team's goals |
| Scores.Outcome | internal/service/match_service.go:123-129 | HOME_WIN iff home > away, AWAY_WIN iff away > home, DRAW iff equal |
| Scores.TallyScore | internal/service/match_service.go:112-121 | the loop's two counters equal the home and away tallies and add up to the number of goals |
| Matches.TotalPages | internal/service/match_service.go:87-90 | as written, in 64-bit arithmetic: 0 for a non-positive limit; the intended page count when total + limit - 1 fits; when that sum overflows (total then being positive) a count of at most 0 |
| Matches.PageCountIsCeiling | internal/service/match_service.go:87-90 | the corrected page count is 0 without items or with a non-positive limit, and otherwise the ceiling of total / limit: (pages-1)·limit < total ≤ pages·limit, with 1 ≤ pages ≤ total |
| Matches.TotalPagesWrapsNegative | internal/service/match_service.go:89 | a limit of 2^63 - 1 with two items gives -1 pages as written, where the corrected count gives 1 |
| Matches.OutcomeText | internal/service/match_service.go:195-202 | "Tim Home Menang" iff home > away, "Tim Away Menang" iff away > home, "Draw" iff equal |
| Matches.OutcomeTextAgreesWithStatus | internal/service/match_service.go:195-202 | the report's outcome text agrees with the status result processing stores for the same goals |
| Matches.ProcessedMatchIsNotFinished | internal/service/match_service.go:123-129 | a processed match is HOME_WIN, AWAY_WIN or DRAW, never SELESAI |
| Matches.ScorerTallyCounts | internal/service/match_service.go:158-159 | the per-player tally holds exactly the players who scored, each with their goal count |
| Matches.ScorerOfGoalScored | internal/service/match_service.go:158 | the scorer of every goal has a positive goal count |
| Matches.PickTopScorer | internal/service/match_service.go:172-190 | none iff there are no counts; otherwise a player with the largest count, shown with their row |
| Matches.ScanGoals | internal/service/match_service.go:152-170 | the report loop yields both tallies, the per-player counts and rows, and one goal entry per goal in goal order |
| Matches.MatchService.CheckConflict | internal/repository/match_repository.go:100-107 | some stored match has the team at home or away at exactly that kickoff |
| Matches.MatchService.CountHomeWins | internal/repository/match_repository.go:84-90 | the number of stored matches the team played at home with status HOME_WIN; positive iff there is one |
| Matches.MatchService.CountAwayWins | internal/repository/match_repository.go:92-98 | the number of stored matches the team played away with status AWAY_WIN; positive iff there is one |
| Matches.MatchService.Lookup | internal/repository/match_repository.go:38-54 | the stored match with that id, or none exactly when no match has it |
| Matches.MatchService.Create | internal/service/match_service.go:34-65 | zero or equal team ids give Validation before the store is read; a clash at the same instant gives Conflict, home team first; otherwise one new DIJADWALKAN match with no goals |
| Matches.MatchService.ProcessResult | internal/service/match_service.go:102-135 | an unknown match is NotFound; otherwise only that match's status changes, to the outcome of its tally |
| Matches.MatchService.Report | internal/service/match_service.go:137-221 | an unknown match is NotFound; the report has the shared tally, the agreeing outcome text, one entry per goal in order, a top scorer with the maximum count (none without goals), and the win counts |
| MatchDto.DtoAccountsForGoals | internal/dto/match_dto.go:19-45 | the view's scores add up to its goal count, equal to the match's; goals one for one in order; id copied; status text read back gives the status |
| MatchDto.ToMatchDto | internal/dto/match_dto.go:19-45 | the view is the match's view: id, status and goals copied, the score tallied |
| MatchDto.ToMatchDtoList | internal/dto/match_dto.go:47-53 | the views keep the input's length and order |
| Standings.Record | internal/service/match_service.go:249-283 | a team's running row keeps its id and name, has played = wins + draws + losses, and has no negative counter |
| Standings.Rows | internal/service/match_service.go:285-290 | one row per team |
| Standings.RowIdentities | internal/service/match_service.go:285-290 | every row has played = W + D + L, points = 3·W + D and goal difference = goals for − goals against |
| Standings.UninvolvedTeamIsZero | internal/service/match_service.go:240-247 | a team that played none of the matches has an all-zero row |
| Standings.PlayedCountsInvolvement | internal/service/match_service.go:264-265 | a row's played count is the number of matches its team took part in |
| Standings.Insert | internal/service/match_service.go:292-300 | inserting adds exactly the one row to the multiset |
| Standings.RanksTransitive | internal/service/match_service.go:292-300 | the ranking order by (points, goal difference, goals for) is transitive |
| Standings.InsertKeepsRanked | internal/service/match_service.go:292-300 | inserting into a ranked table keeps it ranked |
| Standings.Ranked | internal/service/match_service.go:292-300 | the sorted table is a permutation of its input, non-increasing by (points, goal difference, goals for) |
| Standings.SumsOfPermutation | internal/service/match_service.go:292-300 | reordering the rows changes neither column sum |
| Standings.SumsBalanceRows | internal/service/match_service.go:264-271 | over all rows, goals for sum to goals against |
| Standings.TableGoalsBalance | internal/service/match_service.go:264-290 | in any table that is a permutation of the rows, goals for sum to goals against |
| Standings.ZeroRows | internal/service/match_service.go:240-247 | one zero row per listed team, keyed by its id |
| Standings.CreditBothSides | internal/service/match_service.go:264-282 | crediting home then away in the map updates every team's row as the per-team fold does |
| Standings.CountMatches | internal/service/match_service.go:249-283 | after the loop every team's row is its record over all the matches |
| Standings.CollectRows | internal/service/match_service.go:285-290 | the collected list, in any map order, is a permutation of the finished rows |
| Standings.LeagueStanding | internal/service/match_service.go:223-303 | one row per team, a permutation of the finished rows, sorted by (points, goal difference, goals for) |
| Goals.IsRegularMinute | internal/service/goal_service.go:52 | the first alternative of the minute pattern: one digit, 1-8 followed by a digit, or "90" |
| Goals.IsStoppageMinute | internal/service/goal_service.go:52 | the second alternative: "45+" or "90+" followed by one or more digits |
| Goals.IsValidMinute | internal/service/goal_service.go:52 | the whole pattern: either alternative, matched against the entire text |
| Goals.RegularMinuteIsDecimalUpTo90 | internal/service/goal_service.go:52 | the regulation minute forms are exactly the canonical decimal texts of 0 to 90 |
| Goals.StoppageMinuteShape | internal/service/goal_service.go:52 | the stoppage forms are exactly 45 or 90, a plus sign and one or more digits |
| Goals.MinuteExamples | internal/service/goal_service.go:52-57 | "0", "45", "90", "45+2", "90+5" pass; "91", "-1", "abc", "45+", "05" fail |
| Goals.CheckGoal | internal/service/goal_service.go:32-69 | success iff ids set, match found, team plays in it, minute valid and status not blocked; only 400 or 404; 404 exactly for a missing match after the id checks; the minute is checked before the status |
| Goals.GoalAddsToItsSide | internal/service/goal_service.go:71-75 | a recorded goal adds one to its team's side and nothing to the other |
| Goals.GoalService.constructor | internal/service/goal_service.go:22-30 | the service starts over a valid match store, the one the match service uses |
| Goals.GoalService.AddGoal | internal/service/goal_service.go:32-76 | the outcome is the guard chain's; on success exactly one goal is appended to its match in the shared store, adding one to its side's tally, and nothing else changes; the store stays valid |
| Players.TransferGuardRefusesFreeNumber | internal/service/player_service.go:156-158 | a transfer to a live team with a free number is refused by the guard as written and admitted by the intended guard |
| Players.AsWrittenRefusesEveryTransfer | internal/service/player_service.go:156-158 | with a non-nil lookup result, every transfer that passes the player and team checks is refused with 409 |
| Players.PlayerService.FindJerseyNumber | internal/repository/player_repository.go:82-86 | the returned reference is never Nil; found iff someone in the team wears the number, and then it is that unique player |
| Players.ValidPosition | internal/service/player_service.go:32-40 | exactly the four positions PENYERANG, GELANDANG, BERTAHAN and PENJAGA_GAWANG |
| Players.PlayerService.Create | internal/service/player_service.go:62-97 | checks name, position (the four valid ones), missing team, deleted team, taken number, in that order; success inserts the row under a fresh id and keeps numbers unique |
| Players.PlayerService.Update | internal/service/player_service.go:99-113 | Conflict only when another player of the team wears the number; a player may keep their own; the upsert keeps numbers unique |
| Players.PlayerService.Delete | internal/service/player_service.go:115-124 | an unknown id is NotFound; otherwise exactly that player is removed |
| Players.PlayerService.TransferPlayer | internal/service/player_service.go:142-178 | as written: NotFound or Validation from the checks, otherwise always Conflict; nothing is written |
| Players.PlayerService.TransferPlayerIntended | internal/service/player_service.go:142-178 | Conflict iff the number is worn in the destination team; otherwise one history line with the old team is appended first, then only team and number change; a failed update leaves the line |
| Auth.TokenClaimsShape | internal/service/auth_service.go:100-121 | access claims carry the current version and expire at now + 900; refresh claims carry type "refresh" and the jti, no version, and expire at now + 604800 |
| Auth.WithoutUser | internal/repository/refresh_token_repository.go:48-50 | deleting by user removes exactly that user's tokens and keeps all others |
| Auth.AuthService.FindByUsername | internal/service/auth_service.go:47-50 | found iff some user has the name, and then it is that stored user |
| Auth.AuthService.Register | internal/service/auth_service.go:34-67 | the upper-cased role must be ADMIN, STAFF or VIEWER; a taken name is Conflict; a hashing failure is Internal; success stores one user with the upper-cased role and version 0 |
| Auth.AuthService.Login | internal/service/auth_service.go:69-90 | unknown name NotFound; for a known name, Validation exactly when the stored hash does not match, with nothing changed; with a matching password, Ok exactly when the new refresh text is not yet in the unique index, and otherwise Internal with the user's tokens already deleted; success deletes the user's refresh tokens, saves exactly one new one and keeps every version |
| Auth.AuthService.SaveSession | internal/service/auth_service.go:79-87 | mints the pair for the user and saves the refresh token, failing only on a token text already in the unique index |
| Auth.AuthService.BumpVersion | internal/service/auth_service.go:155-158 | the user's version goes up by exactly one and exceeds the version of every access token handed out to them |
| Auth.AuthService.Refresh | internal/service/auth_service.go:139-171 | unknown token Unauthorized; expired token deleted and Unauthorized with versions untouched; for a live token of a known user the version goes up by one, and the result is Ok exactly when the new refresh text is not yet in the unique index, otherwise Internal with the presented token already deleted; success makes every earlier access token carry a smaller version and replaces the old refresh token; a user never holds more than one stored refresh token |
| Auth.AuthService.Logout | internal/service/auth_service.go:173-194 | unknown token Unauthorized, unknown user NotFound, and Done exactly otherwise; then the version goes up by one and the token is deleted, whatever its expiry |
| Middleware.BearerTokenRoundTrip | internal/middleware/auth_middleware.go:25-32 | a recognised header is "bearer" in any case, one space and a token without spaces; every such header yields its token |
| Middleware.JWTAuth | internal/middleware/auth_middleware.go:14-85 | every refusal is 401; acceptance only for a signed, unexpired token whose user exists and whose version is current, exporting its user id and string role |
| Middleware.RefreshTokenIsNeverAccepted | internal/middleware/auth_middleware.go:53-58 | a refresh token never authenticates a request |
| Middleware.AccessTokenLifetime | internal/middleware/auth_middleware.go:35-71 | a fresh access token is accepted exactly while under 15 minutes old with the version unchanged, refused as expired or revoked otherwise |
| Middleware.RevokedAccessTokenIsRefused | internal/middleware/auth_middleware.go:67-71 | once the user's version has moved past the token's, the token is refused |
| Middleware.AdminOnly | internal/middleware/auth_middleware.go:87-97 | passes exactly for the role "ADMIN", case-sensitive, and otherwise answers 403 |
| Middleware.RequireRoles | internal/middleware/rbac.go:10-33 | no role gives 401; passes iff the upper-cased role is in the list; otherwise 403 |
| Middleware.RequireRolesIgnoresCase | internal/middleware/rbac.go:19-26 | the caller's role is matched regardless of its letter case (the list entries are compared as given), and an empty list denies every role |
| Middleware.AdminOnlyIsStricter | internal/middleware/rbac.go:19-26 | what the admin-only gate passes, a list naming ADMIN passes; "admin" passes the list but not the admin-only gate |

## Findings

| source | as written | input that shows it | evidently intended | confidence | as-written member | corrected member |
|---|---|---|---|---|---|---|
| internal/service/player_service.go:156-158 | the jersey guard refuses the transfer when the lookup's result is non-nil; the lookup (internal/repository/player_repository.go:82-86) always returns a non-nil result, so every transfer to a live team is refused with 409 | player 1 of team 1 wearing 10 moves to live team 2 with number 7, which nobody in team 2 wears | refuse only when the lookup found a player, as Create and Update do by testing the error | not executed | Players.PlayerService.TransferPlayer | Players.PlayerService.TransferPlayerIntended |
| internal/service/match_service.go:89 | the page count adds total and limit - 1 in 64-bit arithmetic before dividing; the limit is any positive 64-bit value the query accepts, so the sum can wrap around to a negative number | `limit=9223372036854775807` with two matching matches: the sum wraps to -2^63 and the truncating division gives -1 pages | the ceiling of total / limit, computed without the overflowing sum (whole pages plus one for a partial page), which is 1 here | not executed | Matches.TotalPagesWrapsNegative | Matches.PageCountIsCeiling |

`Players.TransferGuardRefusesFreeNumber` shows the discrepancy on this input. `Players.AsWrittenRefusesEveryTransfer` shows it holds for every transfer that passes the team checks.

## Left out

- The HTTP layer (handlers, routes, JSON responses, `ParseQuery`'s reading of the request URL) is not part of this model. Its only logic is binding and wiring.
- The repositories are maps with their query predicates copied. Failures of the storage layer are not modelled, with these exceptions:
  - a failing player update at the end of a transfer;
  - a refresh-token save that clashes with the unique index.
  The other error paths of the kind "gagal ..." are therefore not modelled. These include "Duplicate entry" detection, "gagal menambahkan gol" and "gagal update token version".
- GORM soft deletes: a deleted team is modelled by a `deleted` flag that the player and transfer checks read. The ORM's default scope would hide such rows from the team lookup, and the model does not reproduce that hiding.
- JWT signing and parsing, bcrypt and uuid are parameters. So are the clock and the random token id. RFC 3339 time formatting and the team objects preloaded into the report and the view are left out.
- Middleware.JWTAuth: a fractional or negative numeric claim is not modelled. Claims are whole numbers, and a negative user id is treated as an unknown user. The source converts such a value to an unsigned integer.
- Text.ToUpper: models ASCII case mapping only, not Go's full Unicode mapping.
- Query.ParseFromValues: requires every filter key to carry at least one value. The source indexes the first value without a check, and values parsed from a URL always carry one.
- Standings.LeagueStanding: requires both teams of every match to be in the team list, because the source dereferences a missing row otherwise. It also requires team ids to be distinct. The team list is taken as given, with no 9999-row cap.
- Standings.Ranked: the source's `sort.Slice` is not stable. The model fixes one insertion order, and the contract promises only a permutation sorted by the ranking, which is what the source promises.
- Matches.MatchService.Report: the home and away win counts are taken over the model's match map. The repository's own error results are ignored there, as the source ignores them.
- GetByID and Update of the match service, the goal pass-throughs (GetGoals, TopScorers), the team and user services, and the field-copy DTOs are left out. They are plain CRUD or field copies.
- The declaration of the standings DTO is not part of this model. Its fields are those the league-table code assigns.
- The status column's domain is not modelled. The column is declared as an enumeration of DIJADWALKAN, SEDANG BERLANGSUNG, SELESAI and DIBATALKAN (internal/models/match.go:23), so a database in strict mode refuses the HOME_WIN, AWAY_WIN or DRAW that result processing writes: the update fails, ProcessResult answers "gagal menyimpan hasil pertandingan" and the match keeps its status; a non-strict database stores an empty text instead. The model stores the result status as written, so Matches.MatchService.ProcessResult, Matches.ProcessedMatchIsNotFinished, Matches.MatchService.CountHomeWins and Matches.MatchService.CountAwayWins describe the code's intent rather than what such a database keeps.
- Goals.GoalService.AddGoal: the goal service and the match service share one match store, in which each match carries its goals; the separate goal table and the preloading of a match's goals from it are not modelled.
- Concurrent requests are not modelled. Each operation runs to completion before the next starts.
