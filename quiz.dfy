/**
 * The quiz session: the state kept across interactions (the remaining pool of
 * nouns for the chosen level, the running score and trial count, the position
 * of the noun on show, and a score/trial tally per level) and the operations
 * that select a level, show a noun, check a typed plural and summarise a level.
 */
module Quiz {
  import opened Wrappers
  import opened Text
  import opened Catalog
  import opened Feedback

  /** A level's running tally, `level_scores[level]`. */
  datatype Tally = Tally(score: nat, trials: nat)

  /** What selecting a level reports. */
  datatype SelectOutcome = LevelSelected | NoContent

  /** What asking for the next noun reports: every noun answered, or the singular on show. */
  datatype DrawOutcome = AllAnswered(score: nat, trials: nat) | Shown(singular: string)

  /** What submitting a plural reports. */
  datatype SubmitOutcome =
    | Finished(score: nat, trials: nat)
    | NoPromptShown
    | IndexOutOfRange
    | Correct(singular: string, plural: string)
    | Incorrect(singular: string, plural: string)

  /** The completion summary of a level: its tier and the tally it was computed from. */
  datatype LevelSummary = LevelSummary(tier: Tier, score: nat, trials: nat)

  /**
   * `user_plural.lower() == correct_plural.lower()`: an answer is accepted
   * exactly when it spells the plural letter by letter, ignoring case.
   */
  predicate AnswerMatches(answer: string, plural: string): (r: bool)
    ensures r <==> SameUpToCase(answer, plural)
  {
    LowerEqualIff(answer, plural);
    Lower(answer) == Lower(plural)
  }

  /** The plural typed in capitals is accepted. */
  lemma ShoutedAnswerMatches(plural: string)
    ensures AnswerMatches(Upper(plural), plural)
  {
  }

  /** The pool with the row at position `i` dropped (`drop(index[i])`, row labels being unique). */
  function RemoveAt<T>(s: seq<T>, i: nat): (r: seq<T>)
    requires i < |s|
    ensures |r| == |s| - 1
    ensures forall j :: 0 <= j < i ==> r[j] == s[j]
    ensures forall j :: i <= j < |r| ==> r[j] == s[j + 1]
    ensures multiset(r) == multiset(s) - multiset{s[i]}
    ensures forall x :: x in r ==> x in s
  {
    assert s == s[..i] + [s[i]] + s[i + 1..];
    s[..i] + s[i + 1..]
  }

  /** A zero tally for each of the five levels. */
  function InitialScores(): (m: map<Level, Tally>)
    ensures forall l :: l in m && m[l] == Tally(0, 0)
  {
    LevelsComplete();
    map l: Level | l in Levels :: Tally(0, 0)
  }

  class Session {
    /** The rows read from the CSV file, assumed not to change during a session. */
    const catalog: seq<Noun>
    /** `remaining_nouns`: the rows of the current level still to be asked; a correct answer drops its row. */
    var pool: seq<Noun>
    var currentLevel: Option<Level>
    var score: nat
    var trials: nat
    /** The position in `pool` of the noun on show; -1 when none has been shown. */
    var currentIndex: int
    var levelScores: map<Level, Tally>

    /**
     * The pool holds catalog rows of the current level only, the index is -1 or at
     * most the pool's size (it equals the size after the last row was
     * answered), no score exceeds its trials, the per-level tally of the
     * current level is at least the running score and trials, and the
     * running score plus the pool's size equals the level's row count.
     */
    ghost predicate Valid()
      reads this
    {
      && -1 <= currentIndex <= |pool|
      && score <= trials
      && (forall l :: l in levelScores)
      && (forall l :: l in levelScores ==> levelScores[l].score <= levelScores[l].trials)
      && (pool != [] ==> currentLevel.Some?)
      && (currentLevel == None ==> score == 0 && trials == 0)
      && (currentLevel.Some? ==>
            && (forall n :: n in pool ==> n in catalog && n.level == currentLevel.value)
            && score <= levelScores[currentLevel.value].score
            && trials <= levelScores[currentLevel.value].trials
            && score + |pool| == CountAt(catalog, currentLevel.value))
    }

    /** The state a new session starts in. */
    constructor (catalog: seq<Noun>)
      ensures Valid()
      ensures this.catalog == catalog
      ensures pool == [] && currentLevel == None && currentIndex == -1
      ensures score == 0 && trials == 0
      ensures levelScores == InitialScores()
    {
      this.catalog := catalog;
      pool := [];
      currentLevel := None;
      score := 0;
      trials := 0;
      currentIndex := -1;
      levelScores := InitialScores();
    }

    /**
     * `reset_level(name)`: a name with rows starts that level afresh with all
     * of its rows; a name without rows changes nothing. The per-level tallies
     * are kept either way.
     */
    method SelectLevel(name: string) returns (outcome: SelectOutcome)
      requires Valid()
      modifies this`pool, this`currentLevel, this`score, this`trials, this`currentIndex
      ensures Valid()
      ensures outcome == NoContent <==>
                LevelNamed(name) == None || LevelRows(catalog, LevelNamed(name).value) == []
      ensures outcome == NoContent ==> unchanged(this)
      ensures outcome == LevelSelected ==>
                && currentLevel == LevelNamed(name)
                && pool == LevelRows(catalog, currentLevel.value)
                && score == 0 && trials == 0 && currentIndex == -1
                && levelScores == old(levelScores)
    {
      var named := LevelNamed(name);
      if named == None {
        outcome := NoContent;
        return;
      }
      var rows := LevelRows(catalog, named.value);
      LevelRowsCount(catalog, named.value);
      if rows == [] {
        outcome := NoContent;
        return;
      }
      pool := rows;
      currentLevel := named;
      score := 0;
      trials := 0;
      currentIndex := -1;
      outcome := LevelSelected;
    }

    /**
     * `show_next_noun()`: with rows left, puts some position of the pool on
     * show (the source picks it at random); with none left, reports the
     * running score and changes nothing.
     */
    method ShowNextNoun() returns (outcome: DrawOutcome)
      requires Valid()
      modifies this`currentIndex
      ensures Valid()
      ensures pool == [] ==> outcome == AllAnswered(score, trials) && currentIndex == old(currentIndex)
      ensures pool != [] ==> 0 <= currentIndex < |pool| && outcome == Shown(pool[currentIndex].singular)
    {
      if pool == [] {
        outcome := AllAnswered(score, trials);
        return;
      }
      var i :| 0 <= i < |pool|;
      currentIndex := i;
      outcome := Shown(pool[currentIndex].singular);
    }

    /**
     * `check_plural(answer)`: with an empty pool or nothing on show, changes
     * nothing; an index one past the pool's end (left behind by a correct
     * answer to the last of several rows) fails before anything is counted. Otherwise
     * counts a trial for the session and the level, and when the answer
     * matches the plural ignoring case, counts a point for both and drops
     * the row from the pool. The index is left where it was.
     */
    method CheckPlural(answer: string) returns (outcome: SubmitOutcome)
      requires Valid()
      modifies this`score, this`trials, this`pool, this`levelScores
      ensures Valid()
      ensures old(pool) == [] ==> outcome == Finished(score, trials) && unchanged(this)
      ensures old(pool) != [] && currentIndex == -1 ==> outcome == NoPromptShown && unchanged(this)
      ensures old(pool) != [] && currentIndex == |old(pool)| ==> outcome == IndexOutOfRange && unchanged(this)
      ensures old(pool) != [] && 0 <= currentIndex < |old(pool)| ==>
                var noun := old(pool)[currentIndex];
                var l := currentLevel.value;
                var point := if AnswerMatches(answer, noun.plural) then 1 else 0;
                && outcome == (if point == 1 then Correct(noun.singular, noun.plural)
                               else Incorrect(noun.singular, noun.plural))
                && trials == old(trials) + 1
                && score == old(score) + point
                && levelScores == old(levelScores)[l := Tally(old(levelScores)[l].score + point,
                                                             old(levelScores)[l].trials + 1)]
                && pool == (if point == 1 then RemoveAt(old(pool), currentIndex) else old(pool))
    {
      if pool == [] {
        outcome := Finished(score, trials);
        return;
      }
      if currentIndex == -1 {
        outcome := NoPromptShown;
        return;
      }
      if currentIndex >= |pool| {
        outcome := IndexOutOfRange;
        return;
      }
      var noun := pool[currentIndex];
      var l := currentLevel.value;
      trials := trials + 1;
      levelScores := levelScores[l := Tally(levelScores[l].score, levelScores[l].trials + 1)];
      if Lower(answer) == Lower(noun.plural) {
        score := score + 1;
        levelScores := levelScores[l := Tally(levelScores[l].score + 1, levelScores[l].trials)];
        pool := RemoveAt(pool, currentIndex);
        outcome := Correct(noun.singular, noun.plural);
      } else {
        outcome := Incorrect(noun.singular, noun.plural);
      }
    }

    /**
     * `generate_feedback()`: the tier of the current level's tally, which
     * counts every answer given on that level in this session, including
     * those of earlier selections of it.
     */
    function LevelFeedback(): (r: LevelSummary)
      reads this
      requires Valid() && currentLevel.Some?
      ensures r.score == levelScores[currentLevel.value].score
      ensures r.trials == levelScores[currentLevel.value].trials
      ensures r.score <= r.trials
      ensures r.tier == Classify(r.score, r.trials)
      ensures r.tier == Mastered <==> r.trials > 0 && r.score == r.trials
    {
      var t := levelScores[currentLevel.value];
      LevelSummary(Classify(t.score, t.trials), t.score, t.trials)
    }

    /**
     * The page shows the level summary once a level is chosen and its pool is
     * empty; the running score then equals the level's row count, and the
     * level's tally has at least that many trials.
     */
    function CompletionFeedback(): (r: Option<LevelSummary>)
      reads this
      requires Valid()
      ensures r.Some? <==> pool == [] && currentLevel.Some?
      ensures r.Some? ==> score == CountAt(catalog, currentLevel.value)
      ensures r.Some? ==> r.value.trials >= CountAt(catalog, currentLevel.value)
      ensures r.Some? ==> r.value == LevelFeedback()
    {
      if pool == [] && currentLevel.Some? then Some(LevelFeedback()) else None
    }
  }
}
