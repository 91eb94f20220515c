/**
 * Score bookkeeping: what one hit does to the score and the answer
 * counters, and how the final score and accuracy pick a badge.
 */
module Scoring {
  import opened Entities

  const PointsCorrect := 100
  const PointsWrong := -20

  /** The score and the two answer counters, as one value. */
  datatype Tally = Tally(score: int, correct: nat, wrong: nat)

  /** Hits resolved so far: every hit counts as one answer. */
  function Answers(t: Tally): nat
  {
    t.correct + t.wrong
  }

  /**
   * The effect of `handleCollision`: a matching treatment earns 100 points
   * and a correct answer, any other costs 20 points and counts as wrong,
   * and the score is then clamped at zero.
   */
  function Scored(t: Tally, fired: ShotType, needed: ShotType): (r: Tally)
    ensures r.score >= 0
    ensures Answers(r) == Answers(t) + 1
    ensures fired == needed ==> r.correct == t.correct + 1 && r.wrong == t.wrong
    ensures fired != needed ==> r.wrong == t.wrong + 1 && r.correct == t.correct
    ensures t.score >= 0 && fired == needed ==> r.score == t.score + 100
    ensures t.score >= 0 && fired != needed ==> r.score == t.score - (if t.score < 20 then t.score else 20)
  {
    if fired == needed then
      var s := t.score + PointsCorrect;
      Tally(if 0 < s then s else 0, t.correct + 1, t.wrong)
    else
      var s := t.score + PointsWrong;
      Tally(if 0 < s then s else 0, t.correct, t.wrong + 1)
  }

  /** Percentage of answers that were correct; 0 when there were none. */
  function Accuracy(correct: nat, wrong: nat): (a: real)
    ensures 0.0 <= a <= 100.0
    ensures correct + wrong == 0 ==> a == 0.0
    ensures wrong == 0 && correct > 0 ==> a == 100.0
  {
    var total := correct + wrong;
    if total > 0 then (correct as real / total as real) * 100.0 else 0.0
  }

  /** Integer form of "accuracy is at least `pct` percent": at least one answer, and cross-multiplied. */
  predicate AtLeastPercent(correct: nat, wrong: nat, pct: nat)
  {
    correct + wrong > 0 && 100 * correct >= pct * (correct + wrong)
  }

  /** The real-valued accuracy threshold agrees with the cross-multiplied one. */
  lemma AccuracyThreshold(correct: nat, wrong: nat, pct: nat)
    requires 0 < pct
    ensures Accuracy(correct, wrong) >= pct as real <==> AtLeastPercent(correct, wrong, pct)
  {
    var total := correct + wrong;
    if total > 0 {
      var t := total as real;
      var q := correct as real / t;
      assert q * t == correct as real;
      assert Accuracy(correct, wrong) == q * 100.0;
      if q * 100.0 >= pct as real {
        assert q * 100.0 * t >= pct as real * t;
        assert (100 * correct) as real >= (pct * total) as real;
      }
      if AtLeastPercent(correct, wrong, pct) {
        assert (100 * correct) as real >= (pct * total) as real;
        assert q * 100.0 * t >= pct as real * t;
      }
    }
  }

  datatype Badge = Novice | Hero | Legend

  const LegendScore := 5000
  const HeroScore := 2000
  const LegendAccuracy := 80
  const HeroAccuracy := 60

  /**
   * The badge `endGame` awards: Legend for at least 5000 points at 80%
   * accuracy, otherwise Hero for at least 2000 points at 60%, otherwise Novice.
   */
  function BadgeFor(score: int, correct: nat, wrong: nat): (b: Badge)
    ensures b == Legend <==> score >= 5000 && AtLeastPercent(correct, wrong, 80)
    ensures b == Hero <==>
      !(score >= 5000 && AtLeastPercent(correct, wrong, 80)) &&
      score >= 2000 && AtLeastPercent(correct, wrong, 60)
  {
    AccuracyThreshold(correct, wrong, LegendAccuracy);
    AccuracyThreshold(correct, wrong, HeroAccuracy);
    var accuracy := Accuracy(correct, wrong);
    if score >= LegendScore && accuracy >= LegendAccuracy as real then Legend
    else if score >= HeroScore && accuracy >= HeroAccuracy as real then Hero
    else Novice
  }

  function Rank(b: Badge): nat
  {
    match b
    case Novice => 0
    case Hero => 1
    case Legend => 2
  }

  /** With the same answers, a higher score never earns a lower badge. */
  lemma BadgeMonotoneInScore(s1: int, s2: int, correct: nat, wrong: nat)
    requires s1 <= s2
    ensures Rank(BadgeFor(s1, correct, wrong)) <= Rank(BadgeFor(s2, correct, wrong))
  {
  }

  /** With the same score, one more correct answer never earns a lower badge. */
  lemma {:induction false} BadgeMonotoneInCorrect(score: int, correct: nat, wrong: nat)
    ensures Rank(BadgeFor(score, correct, wrong)) <= Rank(BadgeFor(score, correct + 1, wrong))
  {
    var c, t := correct, correct + wrong;
    forall pct: nat | pct <= 100 && AtLeastPercent(c, wrong, pct)
      ensures AtLeastPercent(c + 1, wrong, pct)
    {
      assert 100 * (c + 1) == 100 * c + 100;
      assert pct * (t + 1) == pct * t + pct;
    }
  }

  /** Boundary cases of the badge thresholds. */
  lemma BadgeThresholdExamples()
    ensures BadgeFor(5000, 4, 1) == Legend
    ensures BadgeFor(4999, 99, 1) == Hero
    ensures BadgeFor(2000, 3, 2) == Hero
    ensures BadgeFor(1999, 10, 0) == Novice
    ensures BadgeFor(5000, 3, 1) == Hero
    ensures BadgeFor(0, 0, 0) == Novice
    ensures BadgeFor(5000, 79, 21) == Hero
    ensures BadgeFor(2000, 59, 41) == Novice
  {
  }

  /** What the end screen shows. */
  datatype RoundResult = RoundResult(score: int, correct: nat, wrong: nat, badge: Badge)
}
