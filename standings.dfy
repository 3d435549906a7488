/**
 * `format_standings`: the teams ranked by wins, most first, ties kept in
 * input order, one `**name**: wins-losses` line each under a bold title.
 */
module Standings {
  import opened Wrappers
  import opened Text
  import opened League

  const NoTeamsMessage: string := "No teams found."
  const StandingsTitle: string := "Fantasy League Standings"

  /** Wins never increase from one position to a later one. */
  ghost predicate DescendingByWins(s: seq<Team>) {
    forall i, j :: 0 <= i < j < |s| ==> Wins(s[i]) >= Wins(s[j])
  }

  /** The teams of `s` that have exactly `w` wins, in their order in `s`. */
  function WithWins(s: seq<Team>, w: int): seq<Team> {
    if s == [] then []
    else (if Wins(s[0]) == w then [s[0]] else []) + WithWins(s[1..], w)
  }

  /** Places `t` in front of the first team of `s` that does not have more wins than `t`. */
  function InsertByWins(t: Team, s: seq<Team>): seq<Team> {
    if s == [] then [t]
    else if Wins(s[0]) > Wins(t) then [s[0]] + InsertByWins(t, s[1..])
    else [t] + s
  }

  /**
   * `sorted(teams, key=wins, reverse=True)`: Python's sort is stable, also
   * when reversed, so teams with equal wins keep their input order.
   */
  function SortByWins(teams: seq<Team>): seq<Team> {
    if teams == [] then [] else InsertByWins(teams[0], SortByWins(teams[1..]))
  }

  lemma {:induction false} WithWinsMember(s: seq<Team>, w: int, x: Team)
    ensures x in WithWins(s, w) <==> x in s && Wins(x) == w
  {
    if s != [] {
      WithWinsMember(s[1..], w, x);
      assert s == [s[0]] + s[1..];
    }
  }

  lemma WithWinsCons(x: Team, s: seq<Team>, w: int)
    ensures WithWins([x] + s, w) == (if Wins(x) == w then [x] else []) + WithWins(s, w)
  {
    assert ([x] + s)[1..] == s;
  }

  lemma {:induction false} InsertByWinsPermutes(t: Team, s: seq<Team>)
    ensures multiset(InsertByWins(t, s)) == multiset(s) + multiset{t}
  {
    if s != [] && Wins(s[0]) > Wins(t) {
      InsertByWinsPermutes(t, s[1..]);
      assert s == [s[0]] + s[1..];
    }
  }

  lemma {:induction false} InsertByWinsBounded(t: Team, s: seq<Team>, bound: int)
    requires Wins(t) <= bound
    requires forall k :: 0 <= k < |s| ==> Wins(s[k]) <= bound
    ensures forall k :: 0 <= k < |InsertByWins(t, s)| ==> Wins(InsertByWins(t, s)[k]) <= bound
  {
    if s != [] && Wins(s[0]) > Wins(t) {
      InsertByWinsBounded(t, s[1..], bound);
    }
  }

  lemma {:induction false} InsertByWinsDescending(t: Team, s: seq<Team>)
    requires DescendingByWins(s)
    ensures DescendingByWins(InsertByWins(t, s))
  {
    if s != [] && Wins(s[0]) > Wins(t) {
      var rest := InsertByWins(t, s[1..]);
      InsertByWinsDescending(t, s[1..]);
      InsertByWinsBounded(t, s[1..], Wins(s[0]));
      var r := [s[0]] + rest;
      forall i, j | 0 <= i < j < |r| ensures Wins(r[i]) >= Wins(r[j]) {
        assert r[j] == rest[j - 1];
        if i > 0 {
          assert r[i] == rest[i - 1];
        }
      }
    } else if s != [] {
      var r := [t] + s;
      forall i, j | 0 <= i < j < |r| ensures Wins(r[i]) >= Wins(r[j]) {
        assert r[j] == s[j - 1];
        if i > 0 {
          assert r[i] == s[i - 1];
        }
      }
    }
  }

  lemma {:induction false} InsertByWinsKeepsGroups(t: Team, s: seq<Team>, w: int)
    ensures WithWins(InsertByWins(t, s), w) == WithWins([t] + s, w)
  {
    if s != [] && Wins(s[0]) > Wins(t) {
      var rest := InsertByWins(t, s[1..]);
      InsertByWinsKeepsGroups(t, s[1..], w);
      assert s == [s[0]] + s[1..];
      WithWinsCons(s[0], rest, w);
      WithWinsCons(t, s[1..], w);
      WithWinsCons(t, s, w);
      WithWinsCons(s[0], s[1..], w);
    }
  }

  /**
   * SortByWins is a stable descending sort: it reorders the teams only, wins
   * never increase down the list, and each group of equal wins appears in
   * input order.
   */
  lemma {:induction false} SortByWinsIsStableSort(teams: seq<Team>)
    ensures multiset(SortByWins(teams)) == multiset(teams)
    ensures DescendingByWins(SortByWins(teams))
    ensures forall w :: WithWins(SortByWins(teams), w) == WithWins(teams, w)
  {
    if teams != [] {
      var rest := SortByWins(teams[1..]);
      SortByWinsIsStableSort(teams[1..]);
      InsertByWinsPermutes(teams[0], rest);
      InsertByWinsDescending(teams[0], rest);
      assert teams == [teams[0]] + teams[1..];
      forall w ensures WithWins(SortByWins(teams), w) == WithWins(teams, w) {
        InsertByWinsKeepsGroups(teams[0], rest, w);
        WithWinsCons(teams[0], rest, w);
        WithWinsCons(teams[0], teams[1..], w);
      }
    }
  }

  lemma LeaderHasMostWins(a: seq<Team>, x: Team)
    requires DescendingByWins(a) && x in a
    ensures Wins(x) <= Wins(a[0])
  {
    var i :| 0 <= i < |a| && a[i] == x;
    assert i == 0 || Wins(a[0]) >= Wins(a[i]);
  }

  /** Two descending orders with the same equal-wins groups are the same order. */
  lemma {:induction false} StableOrderIsUnique(a: seq<Team>, b: seq<Team>)
    requires DescendingByWins(a) && DescendingByWins(b)
    requires forall w :: WithWins(a, w) == WithWins(b, w)
    ensures a == b
    decreases |a| + |b|
  {
    if a == [] || b == [] {
      if a != [] {
        WithWinsMember(a, Wins(a[0]), a[0]);
        assert false;
      } else if b != [] {
        WithWinsMember(b, Wins(b[0]), b[0]);
        assert false;
      }
    } else {
      var m, n := Wins(a[0]), Wins(b[0]);
      WithWinsMember(a, n, b[0]);
      WithWinsMember(b, n, b[0]);
      LeaderHasMostWins(a, b[0]);
      WithWinsMember(b, m, a[0]);
      WithWinsMember(a, m, a[0]);
      LeaderHasMostWins(b, a[0]);
      assert m == n;
      WithWinsCons(a[0], a[1..], m);
      WithWinsCons(b[0], b[1..], m);
      assert a == [a[0]] + a[1..] && b == [b[0]] + b[1..];
      assert WithWins(a, m)[0] == a[0] && WithWins(b, m)[0] == b[0];
      assert a[0] == b[0];
      forall w ensures WithWins(a[1..], w) == WithWins(b[1..], w) {
        WithWinsCons(a[0], a[1..], w);
        WithWinsCons(b[0], b[1..], w);
        var head := if Wins(a[0]) == w then [a[0]] else [];
        assert WithWins(a[1..], w) == WithWins(a, w)[|head|..];
        assert WithWins(b[1..], w) == WithWins(b, w)[|head|..];
      }
      StableOrderIsUnique(a[1..], b[1..]);
    }
  }

  /**
   * The reference definition: whatever order of the teams is descending by
   * wins and keeps every equal-wins group in input order is SortByWins' order.
   */
  lemma SortByWinsIsTheStableSort(teams: seq<Team>, ranked: seq<Team>)
    requires DescendingByWins(ranked)
    requires forall w :: WithWins(ranked, w) == WithWins(teams, w)
    ensures ranked == SortByWins(teams)
  {
    SortByWinsIsStableSort(teams);
    StableOrderIsUnique(ranked, SortByWins(teams));
  }

  /** One standings line, `**name**: wins-losses`. */
  function StandingLine(t: Team): string {
    Bold(TeamDisplayName(t)) + ": " + IntToString(Wins(t)) + "-" + IntToString(Losses(t))
  }

  /** The standings lines are the input teams' lines, reordered. */
  lemma StandingLinesArePermutation(teams: seq<Team>)
    ensures multiset(MapLines(StandingLine, SortByWins(teams))) == multiset(MapLines(StandingLine, teams))
  {
    SortByWinsIsStableSort(teams);
    MapLinesPermutes(StandingLine, SortByWins(teams), teams);
  }

  /** No titled block can be mistaken for the no-teams message. */
  lemma TitledIsNotNoTeams(rest: string)
    ensures Bold(StandingsTitle) + "\n" + rest != NoTeamsMessage
  {
    assert (Bold(StandingsTitle) + "\n" + rest)[0] == '*';
    assert NoTeamsMessage[0] == 'N';
  }

  /** The text `format_standings` returns for `data`. */
  function StandingsText(data: League): string {
    var teams := Teams(data);
    if teams == [] then NoTeamsMessage
    else Bold(StandingsTitle) + "\n" + Join(MapLines(StandingLine, SortByWins(teams)), "\n")
  }

  /** The standings are the fixed no-teams message exactly when there are no teams. */
  lemma NoTeamsMessageIffNoTeams(data: League)
    ensures StandingsText(data) == NoTeamsMessage <==> Teams(data) == []
  {
    if Teams(data) != [] {
      TitledIsNotNoTeams(Join(MapLines(StandingLine, SortByWins(Teams(data))), "\n"));
    }
  }

  /**
   * `format_standings`: "No teams found." exactly when there are no teams;
   * otherwise the bold title and one line per team in SortByWins' order.
   */
  method FormatStandings(data: League) returns (text: string)
    ensures text == StandingsText(data)
  {
    var teams := Teams(data);
    if teams == [] {
      return NoTeamsMessage;
    }
    var sortedTeams := SortByWins(teams);
    var lines: seq<string> := [];
    for i := 0 to |sortedTeams|
      invariant lines == MapLines(StandingLine, sortedTeams[..i])
    {
      assert sortedTeams[..i + 1][..i] == sortedTeams[..i];
      lines := lines + [StandingLine(sortedTeams[i])];
    }
    assert sortedTeams[..|sortedTeams|] == sortedTeams;
    text := Bold(StandingsTitle) + "\n" + Join(lines, "\n");
  }
}
