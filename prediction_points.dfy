// The scoring rule applied to a prediction once its match is over: who
// won, whether the predicted team name is right, and how many points it
// earns (10, plus a 5-point bonus for a winning margin of 12 or more).

module PredictionPoints {
  import opened Domain

  /** Points for naming the winner. */
  const CorrectWinner: nat := 10
  /** Extra points when the winner wins by at least `BonusMarginThreshold`. */
  const BonusMargin: nat := 5
  const BonusMarginThreshold: nat := 12

  function Abs(x: int): nat {
    if x < 0 then -x else x
  }

  /**
   * The winning team's name, or None when a score is missing or the match
   * is drawn.
   */
  function GetMatchWinner(m: Match): (r: Option<string>)
    ensures r.None? <==> m.homeScore.None? || m.awayScore.None? || m.homeScore == m.awayScore
    ensures r.Some? ==>
      (r.value == m.homeTeam && m.homeScore.value > m.awayScore.value) ||
      (r.value == m.awayTeam && m.awayScore.value > m.homeScore.value)
  {
    if m.homeScore.None? || m.awayScore.None? then None
    else if m.homeScore.value == m.awayScore.value then None
    else if m.homeScore.value > m.awayScore.value then Some(m.homeTeam)
    else Some(m.awayTeam)
  }

  /**
   * Whether `predictedWinner` names the team that won. A missing score or a
   * draw makes every prediction incorrect.
   */
  function IsPredictionCorrect(predictedWinner: string, m: Match): (r: bool)
    ensures m.homeScore.None? || m.awayScore.None? ==> !r
    ensures m.homeScore == m.awayScore ==> !r
    ensures r <==> GetMatchWinner(m) == Some(predictedWinner)
  {
    if m.homeScore.None? || m.awayScore.None? then false
    else if m.homeScore.value == m.awayScore.value then false
    else
      var actualWinner := if m.homeScore.value > m.awayScore.value then m.homeTeam else m.awayTeam;
      predictedWinner == actualWinner
  }

  /** The winning margin of a match with both scores recorded. */
  function Margin(m: Match): nat
    requires m.homeScore.Some? && m.awayScore.Some?
  {
    Abs(m.homeScore.value - m.awayScore.value)
  }

  /** Points earned by a prediction: 0 if incorrect, else 10 or 15. */
  function CalculatePredictionPoints(predictedWinner: string, m: Match): (r: nat)
    ensures r == 0 || r == 10 || r == 15
    ensures r == 0 <==> !IsPredictionCorrect(predictedWinner, m)
    ensures r == 15 <==> IsPredictionCorrect(predictedWinner, m) && Margin(m) >= 12
    ensures r == 10 <==> IsPredictionCorrect(predictedWinner, m) && Margin(m) <= 11
  {
    // The source re-checks for null scores after the correctness test; a
    // correct prediction already has both, so the two guards are one here.
    if !IsPredictionCorrect(predictedWinner, m) || m.homeScore.None? || m.awayScore.None? then 0
    else
      var points := CorrectWinner;
      var margin := Abs(m.homeScore.value - m.awayScore.value);
      if margin >= BonusMarginThreshold then points + BonusMargin else points
  }

  /**
   * A prediction naming a team that did not win scores nothing, and a
   * prediction scores something only for a team of the match.
   */
  lemma {:induction false} PointsOnlyForAMatchTeam(predictedWinner: string, m: Match)
    ensures CalculatePredictionPoints(predictedWinner, m) > 0 ==>
      predictedWinner == m.homeTeam || predictedWinner == m.awayTeam
    ensures predictedWinner != m.homeTeam && predictedWinner != m.awayTeam ==>
      CalculatePredictionPoints(predictedWinner, m) == 0
  {
    var w := GetMatchWinner(m);
    assert IsPredictionCorrect(predictedWinner, m) <==> w == Some(predictedWinner);
  }

  /**
   * In a decided match exactly one of the two team names is a correct
   * prediction (when the names differ).
   */
  lemma {:induction false} ExactlyOneTeamIsCorrect(m: Match)
    requires m.homeScore.Some? && m.awayScore.Some? && m.homeScore != m.awayScore
    requires m.homeTeam != m.awayTeam
    ensures IsPredictionCorrect(m.homeTeam, m) != IsPredictionCorrect(m.awayTeam, m)
  {
    var w := GetMatchWinner(m);
    assert w.Some?;
  }
}
