/**
 * The message-building branch of `run_update`: a warning line when the fetch
 * result carries `_error`, the two formatted blocks otherwise.
 */
module Dispatch {
  import opened Wrappers
  import opened Text
  import opened League
  import opened Standings
  import opened Matchups

  /** The warning sign and the fixed text in front of the error description. */
  const WarningPrefix: string := "\U{26A0}\U{FE0F} ESPN API error: "

  /** The message body `run_update` posts for the fetch result `data`. */
  function Message(data: League): string {
    match data.error
    case Some(e) => WarningPrefix + e
    case None => StandingsText(data) + "\n\n" + MatchupsText(data)
  }

  predicate IsWarning(msg: string) {
    |WarningPrefix| <= |msg| && msg[..|WarningPrefix|] == WarningPrefix
  }

  /**
   * Message composition: on an `_error` tag the warning line, built without
   * running either formatter; otherwise the standings and the matchups
   * separated by a blank line.
   */
  method ComposeMessage(data: League) returns (msg: string)
    ensures msg == Message(data)
  {
    if data.error.Some? {
      msg := WarningPrefix + data.error.value;
    } else {
      var standings := FormatStandings(data);
      var matchups := FormatMatchups(data);
      msg := standings + "\n\n" + matchups;
    }
  }

  /** The standings block, which opens every successful message, never starts with the warning sign. */
  lemma StandingsStartPlainly(data: League)
    ensures StandingsText(data) != [] && StandingsText(data)[0] != WarningPrefix[0]
  {
    if Teams(data) == [] {
      assert StandingsText(data) == NoTeamsMessage;
    } else {
      var rest := Join(MapLines(StandingLine, SortByWins(Teams(data))), "\n");
      assert StandingsText(data) == Bold(StandingsTitle) + "\n" + rest;
      assert (Bold(StandingsTitle) + "\n" + rest)[0] == '*';
    }
  }

  /** A message is a warning exactly when the fetch result carried an error. */
  lemma WarningIffFetchError(data: League)
    ensures IsWarning(Message(data)) <==> data.error.Some?
  {
    match data.error
    case Some(e) =>
      assert (WarningPrefix + e)[..|WarningPrefix|] == WarningPrefix;
    case None =>
      StandingsStartPlainly(data);
      var msg := Message(data);
      assert msg[0] == StandingsText(data)[0];
  }

  /**
   * With an error tag the message depends on nothing but the error text: the
   * teams, schedule and scoring period play no part.
   */
  lemma ErrorMessageIgnoresPayload(data: League, other: League)
    requires data.error.Some? && other.error == data.error
    ensures Message(data) == Message(other) == WarningPrefix + data.error.value
  {
  }

  /** A failed fetch becomes the warning line carrying its description. */
  lemma FetchFailureMessage(description: string)
    ensures Message(FetchFailure(description)) == WarningPrefix + description
    ensures IsWarning(Message(FetchFailure(description)))
  {
    WarningIffFetchError(FetchFailure(description));
  }
}
