/**
 * The level-completion feedback: the percentage of correct answers on a
 * level, `100 * score / trials` (0 when there were no trials), is put into
 * one of six tiers by a first-match table. Percentages are compared exactly,
 * by cross-multiplying, instead of through a float.
 */
module Feedback {

  datatype Tier = Mastered | NearMastery | SteadyProgress | Halfway | WorkingHard | Encouragement

  /** The order of the tiers, from the lowest (0) to the highest (5). */
  function Rank(t: Tier): nat
  {
    match t
    case Encouragement => 0
    case WorkingHard => 1
    case Halfway => 2
    case SteadyProgress => 3
    case NearMastery => 4
    case Mastered => 5
  }

  /** percentage == 100 */
  predicate PercentIsHundred(score: nat, trials: nat)
  {
    trials > 0 && score == trials
  }

  /** k < percentage */
  predicate PercentAbove(score: nat, trials: nat, k: nat)
  {
    if trials > 0 then k * trials < 100 * score else false
  }

  /** percentage < k */
  predicate PercentBelow(score: nat, trials: nat, k: nat)
  {
    if trials > 0 then 100 * score < k * trials else 0 < k
  }

  /** percentage <= k */
  predicate PercentAtMost(score: nat, trials: nat, k: nat)
  {
    if trials > 0 then 100 * score <= k * trials else true
  }

  /** The tier of a level's `score` out of `trials`, the first row of the table that matches. */
  function Classify(score: nat, trials: nat): (t: Tier)
    ensures t == Mastered <==> trials > 0 && score == trials
    ensures t == NearMastery <==> trials > 0 && 80 * trials < 100 * score < 100 * trials
    ensures t == SteadyProgress <==> trials > 0 && 60 * trials < 100 * score <= 80 * trials
    ensures t == Halfway <==> trials > 0 && 40 * trials < 100 * score <= 60 * trials
    ensures t == WorkingHard <==> trials > 0 && 20 * trials < 100 * score <= 40 * trials
    ensures t == Encouragement <==> trials == 0 || 100 * score <= 20 * trials || score > trials
  {
    if PercentIsHundred(score, trials) then Mastered
    else if PercentAbove(score, trials, 80) && PercentBelow(score, trials, 100) then NearMastery
    else if PercentAbove(score, trials, 60) && PercentAtMost(score, trials, 80) then SteadyProgress
    else if PercentAbove(score, trials, 40) && PercentAtMost(score, trials, 60) then Halfway
    else if PercentAbove(score, trials, 20) && PercentAtMost(score, trials, 40) then WorkingHard
    else Encouragement
  }

  /** With no trials the percentage is 0, which falls in the lowest tier. */
  lemma NoTrialsEncourage(score: nat)
    ensures Classify(score, 0) == Encouragement
  {
  }

  /** Exactly 80% (8 out of 10) is steady progress, not near mastery. */
  lemma EightyPercentIsSteady(k: nat)
    requires k > 0
    ensures Classify(8 * k, 10 * k) == SteadyProgress
  {
  }

  /** Exactly 20% (2 out of 10) is in the lowest tier. */
  lemma TwentyPercentEncourages(k: nat)
    requires k > 0
    ensures Classify(2 * k, 10 * k) == Encouragement
  {
  }

  /** If `s1/t1 <= s2/t2` and the first ratio is above k percent, so is the second. */
  lemma AboveTransfers(s1: nat, t1: nat, s2: nat, t2: nat, k: nat)
    requires t1 > 0 && t2 > 0
    requires s1 * t2 <= s2 * t1
    requires k * t1 < 100 * s1
    ensures k * t2 < 100 * s2
  {
  }

  /** If `s1/t1 <= s2/t2` and the first ratio is 100%, so is the second. */
  lemma FullTransfers(s1: nat, t1: nat, s2: nat, t2: nat)
    requires t1 > 0 && t2 > 0 && s2 <= t2
    requires s1 * t2 <= s2 * t1
    requires s1 == t1
    ensures s2 == t2
  {
  }

  /**
   * The tier never falls as the ratio of correct answers rises, for scores
   * that do not exceed the trials (as the quiz session guarantees).
   */
  lemma TierMonotone(s1: nat, t1: nat, s2: nat, t2: nat)
    requires t1 > 0 && t2 > 0
    requires s1 <= t1 && s2 <= t2
    requires s1 * t2 <= s2 * t1
    ensures Rank(Classify(s1, t1)) <= Rank(Classify(s2, t2))
  {
    if s1 == t1 {
      FullTransfers(s1, t1, s2, t2);
    }
    if 80 * t1 < 100 * s1 { AboveTransfers(s1, t1, s2, t2, 80); }
    if 60 * t1 < 100 * s1 { AboveTransfers(s1, t1, s2, t2, 60); }
    if 40 * t1 < 100 * s1 { AboveTransfers(s1, t1, s2, t2, 40); }
    if 20 * t1 < 100 * s1 { AboveTransfers(s1, t1, s2, t2, 20); }
  }
}
