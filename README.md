# ESPN fantasy league webhook — formatting core

A model of the message-building core of `fantasy_webhook.py`, a script that
polls a fantasy-football league's data endpoint and posts a summary to a chat
webhook. The model covers what turns one league payload into the posted text:

- **Standings** (`format_standings`): teams ranked by wins, most first, with
  ties kept in input order (Python's stable `sorted(..., reverse=True)`), one
  `**name**: wins-losses` line per team under a bold title, or
  `No teams found.` when there are none.
- **Matchups** (`format_matchups`): the schedule entries of the current
  scoring period, one `**home** (score) vs **away** (score) — status` line
  each under a bold `Week N Matchups` title; a guard message when teams,
  schedule or period are missing; `No matchups found.` when the period has
  no entries. Team ids are resolved through `build_team_map`; an absent id
  shows as `TBD`, an unknown one as `Team N`; the status code is sorted into
  four buckets (Scheduled, In Progress, Final, and Status Unknown for
  everything else).
- **Message composition** (the branch of `run_update`): a single warning line
  when the fetch result carries `_error`, otherwise the two blocks joined by a
  blank line.

The JSON payload is an explicit schema (`League.League`, `League.Team`,
`League.Matchup`, `League.Side`) whose keys are `Option`s; the defaults the
source applies at each `dict.get` (0 wins/losses, `""` name parts,
`STATUS_UNKNOWN`, a `0.0` score) are applied by accessor functions.
Python's `str.strip()`, `str.join`, `str(int)` and the `bold` helper are in
`Text`.

Files: `wrappers.dfy` (Option), `text.dfy` (string helpers), `league.dfy`
(payload schema and the shared display-name rule), `standings.dfy`,
`matchups.dfy`, `dispatch.dfy`.

The matchups guard tests `scoringPeriodId is None`, so a period of `0`
passes it (fantasy_webhook.py:58).

In the standings the name fallback is `Team {t.get("id")}`, so a team
without an `id` and without name parts is shown as `Team None`
(`League.IdText`).

## Model

| member | source | states |
|---|---|---|
| Text.StripSpec | fantasy_webhook.py:48 | `strip()` cuts away only surrounding whitespace (Python's `isspace` set): the result is a slice of the input, neither starts nor ends with whitespace, and is empty exactly when the input is all whitespace |
| Text.IntToStringRoundTrip | fantasy_webhook.py:50 | the decimal rendering of wins, losses, ids and the week loses nothing: reading it back gives the integer |
| Text.JoinSplitRoundTrip | fantasy_webhook.py:51 | `"\n".join(lines)` loses nothing: for any non-empty list of lines without a newline, splitting the joined text at `\n` (a separately defined `str.split`) gives back exactly the lines, in order |
| Text.BoldInjective | fantasy_webhook.py:30-31 | two different texts never render as the same bold text |
| League.DisplayNameTrimmed | fantasy_webhook.py:48 | the display name is never empty and never starts or ends with whitespace; it falls back to `Team {id}` when location and nickname are both whitespace only, and is the stripped `location nickname` otherwise |
| Standings.SortByWinsIsStableSort | fantasy_webhook.py:45 | the ranking is a permutation of the teams, wins never increase down the list, and each group of equal wins keeps its input order |
| Standings.SortByWinsIsTheStableSort | fantasy_webhook.py:45 | any order of the teams that is descending by wins and keeps equal-wins groups in input order is exactly the ranking, so the ranking is determined by those two properties |
| Standings.StandingLinesArePermutation | fantasy_webhook.py:45-50 | the standings lines are the input teams' lines reordered: one line per team, none added or lost |
| Standings.NoTeamsMessageIffNoTeams | fantasy_webhook.py:37-39 | the standings are exactly `No teams found.` (no title) if and only if the team list is absent or empty |
| Standings.FormatStandings | fantasy_webhook.py:36-51 | the loop that appends one line per ranked team produces the bold title, a newline and the ranked teams' lines joined by newlines |
| Matchups.TeamMapKeys | fantasy_webhook.py:33-34 | the team map has exactly the ids that the teams carry |
| Matchups.TeamMapKeepsLast | fantasy_webhook.py:33-34 | under each id the map holds the last team in input order carrying it, as the dict comprehension overwrites earlier entries |
| Matchups.TeamNameOfUnknownId | fantasy_webhook.py:66-68 | an id missing from the map is shown as `Team {id}` (the empty-dict lookup falls through to the fallback) |
| Matchups.TeamNameAgreesWithStandings | fantasy_webhook.py:66-68 | a known id is named by the same display-name rule the standings use for that team |
| Matchups.StatusClassification | fantasy_webhook.py:77-85 | each known status code lands in its own bucket and only it does; every other string and an absent status land in Status Unknown; different buckets never share a label |
| Matchups.AbsentTeamIsTbd | fantasy_webhook.py:87-90 | a matchup whose home side has no `teamId` renders that side as `**TBD**`, whatever the map, the other side and the status are |
| Matchups.ThisWeekSelects | fantasy_webhook.py:62 | the filter keeps exactly the schedule entries whose `matchupPeriodId` is the week, each as often as the schedule has it |
| Matchups.ThisWeekKeepsOrder | fantasy_webhook.py:62 | the filter keeps schedule order: filtering a concatenation concatenates the filtered parts |
| Matchups.NoScheduleMessageIffMissingData | fantasy_webhook.py:58-59 | the matchups text is exactly `No schedule data available.` if and only if teams or schedule is empty or the scoring period is absent |
| Matchups.NoMatchupsIffNoneThisWeek | fantasy_webhook.py:62-64 | past the guard, the text is the week title plus `No matchups found.` if and only if no schedule entry belongs to the week |
| Matchups.FormatMatchups | fantasy_webhook.py:53-92 | the loop over this week's matchups produces the guard message, the no-matchups block, or the title and one line per matchup in schedule order |
| Dispatch.ComposeMessage | fantasy_webhook.py:95-101 | with `_error` the message is the warning line built without running the formatters; otherwise standings, a blank line, then matchups |
| Dispatch.WarningIffFetchError | fantasy_webhook.py:96-101 | a message begins with the warning prefix if and only if the fetch result carried `_error`; the standings block, which opens every successful message, never begins with the warning sign |
| Dispatch.ErrorMessageIgnoresPayload | fantasy_webhook.py:96-97 | with an error tag the message depends only on the error text, not on teams, schedule or period |
| Dispatch.FetchFailureMessage | fantasy_webhook.py:96-97 | a failed fetch becomes the warning line embedding its description |

## Left out

- `fetch_json` (HTTP GET with cookies and a timeout): an external call; the model takes its result as a `League` value, and `League.FetchFailure` builds the object it returns on failure.
- Configuration (environment variables, exit on a missing webhook URL, cookies, URL building): process setup outside the formatting core.
- Webhook delivery, the timestamped log line and the swallowed delivery exception: I/O.
- The `while True` loop with a five-minute sleep: scheduling.
- The `:.1f` rendering of scores: floating-point formatting; a side's `totalPoints` is taken as its already rendered text, and an absent score as `0.0`.
- JSON `null` values and values of unexpected types: an `Option` models a key that is present with a value of the expected type, or absent. So a null `location` (which Python renders as `None`), a null `status`/`home` object (an exception in Python), a null win count in the sort (a `TypeError`), and integer/float equality of period ids are not modelled.
- Matchups.AbsentTeamIsTbd: stated for the home side, where the rendered line starts; the away side uses the same `Matchups.SideName`, which returns `TBD` for an absent id.
