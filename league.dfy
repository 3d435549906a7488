/**
 * The league payload the data source returns, as an explicit schema. Every
 * key the formatters read with `dict.get` is an `Option`; the default the
 * source supplies at each lookup is applied where the value is read.
 */
module League {
  import opened Wrappers
  import opened Text

  /**
   * One entry of `teams`. `wins` and `losses` stand for
   * `record.overall.wins` / `record.overall.losses`; a missing `record` or
   * `overall` object reads the same as a missing count.
   */
  datatype Team = Team(
    id: Option<int>,
    location: Option<string>,
    nickname: Option<string>,
    wins: Option<int>,
    losses: Option<int>)

  /**
   * The `home` or `away` object of a schedule entry; a missing object reads as
   * `Side(None, None)`. `totalPoints` is the score as rendered with one
   * decimal place (the float formatting itself is not part of this model).
   */
  datatype Side = Side(teamId: Option<int>, totalPoints: Option<string>)

  /** One entry of `schedule`; `statusType` stands for `status.type`. */
  datatype Matchup = Matchup(
    matchupPeriodId: Option<int>,
    home: Side,
    away: Side,
    statusType: Option<string>)

  /**
   * The top-level object the fetch step hands over: the league snapshot, or
   * the object `{"_error": text}` that a failed fetch produces. `error` is the
   * `_error` key.
   */
  datatype League = League(
    teams: Option<seq<Team>>,
    schedule: Option<seq<Matchup>>,
    scoringPeriodId: Option<int>,
    error: Option<string>)

  /** What a failed fetch returns: an object whose only key is `_error`. */
  function FetchFailure(description: string): League {
    League(None, None, None, Some(description))
  }

  /** `data.get("teams", [])`, with a null list read as empty as `not teams` does. */
  function Teams(data: League): seq<Team> {
    data.teams.GetOr([])
  }

  /** `data.get("schedule", [])`. */
  function Schedule(data: League): seq<Matchup> {
    data.schedule.GetOr([])
  }

  /** The win count, 0 when absent (the first half of `wl`). */
  function Wins(t: Team): int {
    t.wins.GetOr(0)
  }

  /** The loss count, 0 when absent (the second half of `wl`). */
  function Losses(t: Team): int {
    t.losses.GetOr(0)
  }

  /** How Python's f-string renders an id that may be `None`. */
  function IdText(id: Option<int>): (r: string)
    ensures r != [] && !IsSpace(r[0]) && !IsSpace(r[|r| - 1])
  {
    match id
    case Some(n) => IntToString(n)
    case None => "None"
  }

  /**
   * The display-name rule both formatters use: `location + " " + nickname`
   * with surrounding whitespace stripped, or `"Team " + idText` when that
   * leaves nothing.
   */
  function DisplayName(location: string, nickname: string, idText: string): string {
    var joined := Strip(location + " " + nickname);
    if joined == "" then "Team " + idText else joined
  }

  /**
   * A display name is never empty and never begins or ends with whitespace;
   * it is the id fallback when both name parts are whitespace only, and the
   * stripped `location nickname` otherwise.
   */
  lemma DisplayNameTrimmed(location: string, nickname: string, idText: string)
    requires idText != [] && !IsSpace(idText[|idText| - 1])
    ensures var r := DisplayName(location, nickname, idText);
      r != [] && !IsSpace(r[0]) && !IsSpace(r[|r| - 1])
    ensures AllSpace(location) && AllSpace(nickname) ==>
      DisplayName(location, nickname, idText) == "Team " + idText
    ensures !(AllSpace(location) && AllSpace(nickname)) ==>
      DisplayName(location, nickname, idText) == Strip(location + " " + nickname)
  {
    var s := location + " " + nickname;
    var r := DisplayName(location, nickname, idText);
    StripSpec(s);
    if Strip(s) == "" {
      assert r == "Team " + idText;
      assert r[|r| - 1] == idText[|idText| - 1];
      forall k | 0 <= k < |location| ensures IsSpace(location[k]) {
        assert s[k] == location[k];
      }
      forall k | 0 <= k < |nickname| ensures IsSpace(nickname[k]) {
        assert s[|location| + 1 + k] == nickname[k];
      }
    }
  }

  /** The standings formatter's name for a team, keyed on the team's own `id`. */
  function TeamDisplayName(t: Team): string {
    DisplayName(t.location.GetOr(""), t.nickname.GetOr(""), IdText(t.id))
  }
}
