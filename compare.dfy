/** The comparison (`compare_teams`): score both teams, name the one with
    the higher score the winner (a tie goes to the second team), and turn the
    ratio of the two scores into a win probability. */
module Compare {
  import opened Base
  import opened Strings
  import opened Fields
  import opened Scoring
  import opened Team

  /** Why no comparison came out: an unknown team (the source returns None)
      or a losing score of zero (the source raises ZeroDivisionError). */
  datatype CompareError = TeamNotFound | ZeroDivision

  /** The result the source returns as a dictionary. */
  datatype Comparison = Comparison(
    winner: string,
    winnerInitials: string,
    winnerScore: real,
    loserInitials: string,
    loserScore: real,
    finalScore: real)

  /** `((T1 / T2) * 100) - 50` when T1 >= T2, the mirrored ratio otherwise,
      without the rounding to two decimals. */
  function FinalScore(t1: real, t2: real): Result<real, CompareError> {
    if t1 >= t2 then
      if t2 == 0.0 then Err(ZeroDivision) else Ok((t1 / t2) * 100.0 - 50.0)
    else
      if t1 == 0.0 then Err(ZeroDivision) else Ok((t2 / t1) * 100.0 - 50.0)
  }

  /** Winner selection: the first team wins only on a strictly higher score. */
  function Decide(name1: string, initials1: string, score1: real,
                  name2: string, initials2: string, score2: real): Result<Comparison, CompareError>
  {
    if score1 > score2 then
      match FinalScore(score1, score2)
      case Err(e) => Err(e)
      case Ok(fs) => Ok(Comparison(name1, initials1, score1, initials2, score2, fs))
    else
      match FinalScore(score2, score1)
      case Err(e) => Err(e)
      case Ok(fs) => Ok(Comparison(name2, initials2, score2, initials1, score1, fs))
  }

  /** The winner never scores below the loser, the first team wins exactly on
      a strictly higher score, and a tie goes to the second team. The win
      probability is always the winner's score over the loser's, times 100,
      minus 50: since the winner never scores lower, the mirrored branch of
      the ratio is never taken. */
  lemma WinnerSelection(name1: string, initials1: string, score1: real,
                        name2: string, initials2: string, score2: real)
    ensures var r := Decide(name1, initials1, score1, name2, initials2, score2);
      && (r.Ok? ==> r.value.winnerScore >= r.value.loserScore)
      && (r.Ok? && score1 > score2 ==>
            r.value == Comparison(name1, initials1, score1, initials2, score2, r.value.finalScore))
      && (r.Ok? && score1 <= score2 ==>
            r.value == Comparison(name2, initials2, score2, initials1, score1, r.value.finalScore))
      && (r.Err? <==> (if score1 > score2 then score2 else score1) == 0.0)
      && (r.Err? ==> r.error == ZeroDivision)
      && (r.Ok? ==> (r.value.loserScore != 0.0
                     && r.value.finalScore == (r.value.winnerScore / r.value.loserScore) * 100.0 - 50.0))
  {
  }

  /** With a positive losing score the probability is at least 50, and
      exactly 50 on a tie. */
  lemma ProbabilityAtLeastFifty(name1: string, initials1: string, score1: real,
                                name2: string, initials2: string, score2: real)
    requires (if score1 > score2 then score2 else score1) > 0.0
    ensures var r := Decide(name1, initials1, score1, name2, initials2, score2);
      && r.Ok? && r.value.finalScore >= 50.0
      && (r.value.finalScore == 50.0 <==> score1 == score2)
  {
    var t1, t2 := if score1 > score2 then score1 else score2, if score1 > score2 then score2 else score1;
    RatioAtLeastOne(t1, t2);
  }

  lemma RatioAtLeastOne(t1: real, t2: real)
    requires t1 >= t2 > 0.0
    ensures t1 / t2 >= 1.0
    ensures t1 / t2 == 1.0 <==> t1 == t2
  {
    assert t1 / t2 * t2 == t1;
  }

  /** Swapping the teams changes nothing when the scores differ. */
  lemma OrderIrrelevantUnlessTied(name1: string, initials1: string, score1: real,
                                  name2: string, initials2: string, score2: real)
    requires score1 != score2
    ensures Decide(name1, initials1, score1, name2, initials2, score2)
         == Decide(name2, initials2, score2, name1, initials1, score1)
  {
  }

  /** `compare_teams`: None from either pass is `TeamNotFound`; the second
      team is only looked up when the first was found. The reported initials
      are the arguments as given. */
  function CompareOutcome(initials1: string, initials2: string, config: map<string, TeamInfo>, web: Web): Result<Comparison, CompareError> {
    match TeamRecordOf(initials1, config, web)
    case None => Err(TeamNotFound)
    case Some(t1) =>
      match TeamRecordOf(initials2, config, web)
      case None => Err(TeamNotFound)
      case Some(t2) => Decide(t1.team, initials1, TeamScore(t1.fields), t2.team, initials2, TeamScore(t2.fields))
  }

  /** An unknown team, first or second, ends the comparison with no result. */
  lemma UnknownTeamNoResult(initials1: string, initials2: string, config: map<string, TeamInfo>, web: Web)
    ensures CompareOutcome(initials1, initials2, config, web) == Err(TeamNotFound)
        <==> Upper(initials1) !in config || Upper(initials2) !in config
  {
    var r1, r2 := TeamRecordOf(initials1, config, web), TeamRecordOf(initials2, config, web);
    if r1.Some? && r2.Some? {
      var t1, t2 := r1.value, r2.value;
      DecideNeverNotFound(t1.team, initials1, TeamScore(t1.fields), t2.team, initials2, TeamScore(t2.fields));
    }
  }

  /** Winner selection alone never reports an unknown team. */
  lemma DecideNeverNotFound(name1: string, initials1: string, score1: real,
                            name2: string, initials2: string, score2: real)
    ensures Decide(name1, initials1, score1, name2, initials2, score2) != Err(TeamNotFound)
  {
  }

  /** The winner selection of `compare_teams`, statement by statement. */
  method SelectWinner(name1: string, initials1: string, score1: real,
                      name2: string, initials2: string, score2: real)
    returns (r: Result<Comparison, CompareError>)
    ensures r == Decide(name1, initials1, score1, name2, initials2, score2)
  {
    var winner, winnerInitials, winnerScore, loserInitials, loserScore;
    var t1, t2;
    if score1 > score2 {
      winner, winnerInitials, winnerScore := name1, initials1, score1;
      loserInitials, loserScore := initials2, score2;
      t1, t2 := score1, score2;
    } else {
      winner, winnerInitials, winnerScore := name2, initials2, score2;
      loserInitials, loserScore := initials1, score1;
      t1, t2 := score2, score1;
    }
    var finalScore := FinalScore(t1, t2);
    if finalScore.Err? {
      return Err(finalScore.error);
    }
    return Ok(Comparison(winner, winnerInitials, winnerScore, loserInitials, loserScore, finalScore.value));
  }

  /** `compare_teams`. */
  method CompareTeams(initials1: string, initials2: string, config: map<string, TeamInfo>, web: Web)
    returns (r: Result<Comparison, CompareError>)
    ensures r == CompareOutcome(initials1, initials2, config, web)
  {
    var team1 := ScrapeTeam(initials1, config, web);
    if team1.None? {
      return Err(TeamNotFound);
    }
    var team2 := ScrapeTeam(initials2, config, web);
    if team2.None? {
      return Err(TeamNotFound);
    }
    var score1 := TeamScore(team1.value.fields);
    var score2 := TeamScore(team2.value.fields);
    r := SelectWinner(team1.value.team, initials1, score1, team2.value.team, initials2, score2);
  }
}
