/**
 * `format_matchups`: the schedule entries of the current scoring period, one
 * `**home** (score) vs **away** (score) — status` line each under a bold
 * `Week N Matchups` title.
 */
module Matchups {
  import opened Wrappers
  import opened Text
  import opened League

  const NoScheduleMessage: string := "No schedule data available."
  const NoMatchupsLine: string := "No matchups found."
  /** What the source renders for a side whose `teamId` is absent. */
  const Undecided: string := "TBD"
  /** What `{0:.1f}` renders for the default score 0. */
  const ZeroScore: string := "0.0"

  /** `build_team_map`: each team under its `id` key; a later team with the same id replaces an earlier one. */
  function TeamMap(teams: seq<Team>): map<Option<int>, Team> {
    if teams == [] then map[]
    else TeamMap(teams[..|teams| - 1])[teams[|teams| - 1].id := teams[|teams| - 1]]
  }

  /** `teams[i]` has id `key` and no later team has. */
  ghost predicate LastWithId(teams: seq<Team>, key: Option<int>, i: int) {
    0 <= i < |teams| && teams[i].id == key && forall j :: i < j < |teams| ==> teams[j].id != key
  }

  /** The map has exactly the ids the teams carry. */
  lemma {:induction false} TeamMapKeys(teams: seq<Team>, key: Option<int>)
    ensures key in TeamMap(teams) <==> exists i :: 0 <= i < |teams| && teams[i].id == key
  {
    if teams != [] {
      var n := |teams| - 1;
      TeamMapKeys(teams[..n], key);
      if key !in TeamMap(teams) {
        forall i | 0 <= i < |teams| ensures teams[i].id != key {
          if i < n {
            assert teams[i] == teams[..n][i];
          }
        }
      } else if teams[n].id != key {
        var i :| 0 <= i < n && teams[..n][i].id == key;
        assert teams[i] == teams[..n][i];
      }
    }
  }

  /** Under each id the map holds the last team, in input order, that carries it. */
  lemma {:induction false} TeamMapKeepsLast(teams: seq<Team>, key: Option<int>)
    requires key in TeamMap(teams)
    ensures exists i :: LastWithId(teams, key, i) && TeamMap(teams)[key] == teams[i]
  {
    var n := |teams| - 1;
    var front := teams[..n];
    if teams[n].id == key {
      assert LastWithId(teams, key, n);
    } else {
      TeamMapKeepsLast(front, key);
      var i :| LastWithId(front, key, i) && TeamMap(front)[key] == front[i];
      assert LastWithId(teams, key, i);
    }
  }

  /** `team_name`: the display name of the team with that id, or `"Team {id}"` for an id the map lacks. */
  function TeamName(teamById: map<Option<int>, Team>, teamId: int): string {
    var t := if Some(teamId) in teamById then teamById[Some(teamId)] else Team(None, None, None, None, None);
    DisplayName(t.location.GetOr(""), t.nickname.GetOr(""), IntToString(teamId))
  }

  /** An id that no team carries is shown by the fallback of the display-name rule. */
  lemma TeamNameOfUnknownId(teamById: map<Option<int>, Team>, teamId: int)
    requires Some(teamId) !in teamById
    ensures TeamName(teamById, teamId) == "Team " + IntToString(teamId)
  {
    StripSpec("" + " " + "");
    assert AllSpace("" + " " + "");
  }

  /** A known id is shown exactly as the standings show that team. */
  lemma TeamNameAgreesWithStandings(teams: seq<Team>, teamId: int)
    requires Some(teamId) in TeamMap(teams)
    ensures TeamName(TeamMap(teams), teamId) == TeamDisplayName(TeamMap(teams)[Some(teamId)])
  {
    TeamMapKeepsLast(teams, Some(teamId));
  }

  /** The four buckets of the status mapping. */
  datatype Status = Scheduled | InProgress | Final | Unknown

  /** `status.type`, defaulting to `STATUS_UNKNOWN`, sorted into its bucket. */
  function StatusOf(statusType: Option<string>): Status {
    var code := statusType.GetOr("STATUS_UNKNOWN");
    if code == "STATUS_SCHEDULED" then Scheduled
    else if code == "STATUS_IN_PROGRESS" then InProgress
    else if code == "STATUS_FINAL" then Final
    else Unknown
  }

  /** The upstream code of each known bucket. */
  function StatusCode(s: Status): string
    requires s != Unknown
  {
    match s
    case Scheduled => "STATUS_SCHEDULED"
    case InProgress => "STATUS_IN_PROGRESS"
    case Final => "STATUS_FINAL"
  }

  /** The label shown for each bucket (clock, red circle, check mark, information sign). */
  function StatusLabel(s: Status): string {
    match s
    case Scheduled => "\U{1F551} Scheduled"
    case InProgress => "\U{1F534} In Progress"
    case Final => "\U{2705} Final"
    case Unknown => "\U{2139}\U{FE0F} Status Unknown"
  }

  /**
   * The mapping is exhaustive: a known code lands in its own bucket, and every
   * other string, or no status at all, lands in Unknown. Different buckets
   * never share a label.
   */
  lemma StatusClassification(statusType: Option<string>, s: Status)
    ensures s != Unknown ==> (StatusOf(statusType) == s <==> statusType == Some(StatusCode(s)))
    ensures StatusOf(statusType) == Unknown <==>
      forall k: Status :: k != Unknown ==> statusType != Some(StatusCode(k))
    ensures StatusLabel(StatusOf(statusType)) == StatusLabel(s) ==> StatusOf(statusType) == s
  {
    if StatusOf(statusType) == Unknown {
      forall k: Status | k != Unknown ensures statusType != Some(StatusCode(k)) {
        assert StatusOf(Some(StatusCode(k))) == k;
      }
    } else {
      var k := StatusOf(statusType);
      assert statusType == Some(StatusCode(k));
    }
    if StatusOf(statusType) != s {
      assert StatusLabel(StatusOf(statusType))[2] != StatusLabel(s)[2];
    }
  }

  /** A side's name: `TBD` when its `teamId` is absent, the looked-up team name otherwise. */
  function SideName(teamById: map<Option<int>, Team>, side: Side): string {
    match side.teamId
    case None => Undecided
    case Some(id) => TeamName(teamById, id)
  }

  /** A side's rendered score, `0.0` when `totalPoints` is absent. */
  function ScoreText(side: Side): string {
    side.totalPoints.GetOr(ZeroScore)
  }

  /** One matchup line, `**home** (score) vs **away** (score) — label`. */
  function MatchupLine(teamById: map<Option<int>, Team>, m: Matchup): string {
    Bold(SideName(teamById, m.home))
      + (" (" + ScoreText(m.home) + ") vs "
         + Bold(SideName(teamById, m.away)) + " (" + ScoreText(m.away) + ") \U{2014} "
         + StatusLabel(StatusOf(m.statusType)))
  }

  /**
   * A side without a team id renders as `**TBD**` whatever the map, the other
   * side and the status hold.
   */
  lemma AbsentTeamIsTbd(teamById: map<Option<int>, Team>, m: Matchup)
    requires m.home.teamId.None?
    ensures MatchupLine(teamById, m)[..|Bold(Undecided)|] == Bold(Undecided)
  {
    var tail := " (" + ScoreText(m.home) + ") vs "
      + Bold(SideName(teamById, m.away)) + " (" + ScoreText(m.away) + ") \U{2014} "
      + StatusLabel(StatusOf(m.statusType));
    assert MatchupLine(teamById, m) == Bold(Undecided) + tail;
    assert (Bold(Undecided) + tail)[..|Bold(Undecided)|] == Bold(Undecided);
  }

  /** `[m for m in schedule if m.get("matchupPeriodId") == week]`. */
  function ThisWeek(schedule: seq<Matchup>, week: int): seq<Matchup> {
    if schedule == [] then []
    else (if schedule[0].matchupPeriodId == Some(week) then [schedule[0]] else []) + ThisWeek(schedule[1..], week)
  }

  /** The filter keeps exactly the entries of this period, and no more of each than the schedule has. */
  lemma {:induction false} ThisWeekSelects(schedule: seq<Matchup>, week: int)
    ensures forall m :: m in ThisWeek(schedule, week) <==> m in schedule && m.matchupPeriodId == Some(week)
    ensures forall m :: multiset(ThisWeek(schedule, week))[m] == (if m.matchupPeriodId == Some(week) then multiset(schedule)[m] else 0)
  {
    if schedule != [] {
      ThisWeekSelects(schedule[1..], week);
      assert schedule == [schedule[0]] + schedule[1..];
    }
  }

  /** The filter keeps schedule order: filtering a concatenation concatenates the filtered parts. */
  lemma {:induction false} ThisWeekKeepsOrder(a: seq<Matchup>, b: seq<Matchup>, week: int)
    ensures ThisWeek(a + b, week) == ThisWeek(a, week) + ThisWeek(b, week)
  {
    if a != [] {
      ThisWeekKeepsOrder(a[1..], b, week);
      assert (a + b)[0] == a[0] && (a + b)[1..] == a[1..] + b;
      var head := if a[0].matchupPeriodId == Some(week) then [a[0]] else [];
      calc {
        ThisWeek(a + b, week);
        head + ThisWeek(a[1..] + b, week);
        head + (ThisWeek(a[1..], week) + ThisWeek(b, week));
        (head + ThisWeek(a[1..], week)) + ThisWeek(b, week);
      }
    } else {
      assert a + b == b;
    }
  }

  /** The bold `Week N Matchups` title. */
  function WeekTitle(week: int): string {
    Bold("Week " + IntToString(week) + " Matchups")
  }

  /** The text `format_matchups` returns for `data`. */
  function MatchupsText(data: League): string {
    var teams := Teams(data);
    var schedule := Schedule(data);
    if teams == [] || schedule == [] || data.scoringPeriodId.None? then NoScheduleMessage
    else
      var week := data.scoringPeriodId.value;
      var matchups := ThisWeek(schedule, week);
      if matchups == [] then WeekTitle(week) + "\n" + NoMatchupsLine
      else WeekTitle(week) + "\n" + Join(MapLines(m => MatchupLine(TeamMap(teams), m), matchups), "\n")
  }

  /** No titled block can be mistaken for the no-schedule message. */
  lemma TitledIsNotNoSchedule(week: int, rest: string)
    ensures WeekTitle(week) + "\n" + rest != NoScheduleMessage
  {
    assert (WeekTitle(week) + "\n" + rest)[0] == '*';
    assert NoScheduleMessage[0] == 'N';
  }

  /**
   * The fixed no-schedule message appears exactly when the teams or the
   * schedule are empty or the scoring period is absent.
   */
  lemma NoScheduleMessageIffMissingData(data: League)
    ensures MatchupsText(data) == NoScheduleMessage <==>
      Teams(data) == [] || Schedule(data) == [] || data.scoringPeriodId.None?
  {
    if !(Teams(data) == [] || Schedule(data) == [] || data.scoringPeriodId.None?) {
      var week := data.scoringPeriodId.value;
      var matchups := ThisWeek(Schedule(data), week);
      if matchups == [] {
        TitledIsNotNoSchedule(week, NoMatchupsLine);
      } else {
        TitledIsNotNoSchedule(week, Join(MapLines(m => MatchupLine(TeamMap(Teams(data)), m), matchups), "\n"));
      }
    }
  }

  /**
   * Once the guard passes, the week's block is the title and the no-matchups
   * line exactly when no schedule entry belongs to this scoring period.
   */
  lemma NoMatchupsIffNoneThisWeek(data: League)
    requires Teams(data) != [] && Schedule(data) != [] && data.scoringPeriodId.Some?
    ensures var week := data.scoringPeriodId.value;
      MatchupsText(data) == WeekTitle(week) + "\n" + NoMatchupsLine <==>
        forall m :: m in Schedule(data) ==> m.matchupPeriodId != Some(week)
  {
    var week := data.scoringPeriodId.value;
    var matchups := ThisWeek(Schedule(data), week);
    ThisWeekSelects(Schedule(data), week);
    if matchups != [] {
      var lines := MapLines(m => MatchupLine(TeamMap(Teams(data)), m), matchups);
      assert lines[0][0] == '*';
      MatchupLinesAreNotNoMatchups(WeekTitle(week) + "\n", lines);
      assert MatchupsText(data) == WeekTitle(week) + "\n" + Join(lines, "\n");
      assert matchups[0] in matchups;
    }
  }

  /** Matchup lines open with a bold name, so they never read as the no-matchups line. */
  lemma MatchupLinesAreNotNoMatchups(title: string, lines: seq<string>)
    requires lines != [] && lines[0] != [] && lines[0][0] == '*'
    ensures title + Join(lines, "\n") != title + NoMatchupsLine
  {
    JoinStartsWithFirst(lines, "\n");
    assert (title + Join(lines, "\n"))[|title|] != (title + NoMatchupsLine)[|title|];
  }

  /**
   * `format_matchups`: the guard message, or the week's title followed by the
   * no-matchups line or by one line per matchup of this period, in schedule order.
   */
  method FormatMatchups(data: League) returns (text: string)
    ensures text == MatchupsText(data)
  {
    var teams := Teams(data);
    var schedule := Schedule(data);
    if teams == [] || schedule == [] || data.scoringPeriodId.None? {
      return NoScheduleMessage;
    }
    var week := data.scoringPeriodId.value;
    var teamById := TeamMap(teams);
    var matchups := ThisWeek(schedule, week);
    if matchups == [] {
      return WeekTitle(week) + "\n" + NoMatchupsLine;
    }
    var lines: seq<string> := [];
    for i := 0 to |matchups|
      invariant lines == MapLines(m => MatchupLine(teamById, m), matchups[..i])
    {
      assert matchups[..i + 1][..i] == matchups[..i];
      lines := lines + [MatchupLine(teamById, matchups[i])];
    }
    assert matchups[..|matchups|] == matchups;
    text := WeekTitle(week) + "\n" + Join(lines, "\n");
  }
}
