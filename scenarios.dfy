/**
 * Whole sessions on small catalogs (mouse/mice, and mouse/mice with
 * tooth/teeth, all at level easy), stated as methods whose postconditions
 * are the outcomes the user sees.
 */
module Scenarios {
  import opened Wrappers
  import opened Text
  import opened Catalog
  import opened Feedback
  import opened Quiz

  /** A session on the catalog mouse/mice with level easy selected. */
  method OneNounSession() returns (session: Session)
    ensures fresh(session) && session.Valid()
    ensures session.pool == [Noun("mouse", "mice", Easy)] && session.currentLevel == Some(Easy)
    ensures session.score == 0 && session.trials == 0 && session.currentIndex == -1
    ensures session.levelScores == InitialScores()
  {
    var mouse := Noun("mouse", "mice", Easy);
    session := new Session([mouse]);
    assert LevelRows([mouse], Easy) == [mouse];
    var selected := session.SelectLevel("easy");
  }

  /** "MICE" is accepted for the plural "mice". */
  lemma MiceInCapitals()
    ensures AnswerMatches("MICE", "mice")
  {
    ShoutedAnswerMatches("mice");
    assert Upper("mice") == "MICE";
  }

  /** The mouse session after "mouse" was shown and "MICE" submitted. */
  method AnsweredInCapitals() returns (session: Session, shown: DrawOutcome, answered: SubmitOutcome)
    ensures fresh(session) && session.Valid()
    ensures shown == Shown("mouse")
    ensures answered == Correct("mouse", "mice")
    ensures session.pool == [] && session.currentLevel == Some(Easy)
    ensures session.score == 1 && session.trials == 1
    ensures session.levelScores[Easy] == Tally(1, 1)
  {
    session := OneNounSession();
    shown := session.ShowNextNoun();
    MiceInCapitals();
    answered := session.CheckPlural("MICE");
  }

  /** Answering "MICE" empties the pool, and the level is mastered with 1 out of 1. */
  method CorrectAnswerSession() returns (shown: DrawOutcome, answered: SubmitOutcome, next: DrawOutcome,
                                         summary: LevelSummary)
    ensures shown == Shown("mouse")
    ensures answered == Correct("mouse", "mice")
    ensures next == AllAnswered(1, 1)
    ensures summary == LevelSummary(Mastered, 1, 1)
  {
    var session;
    session, shown, answered := AnsweredInCapitals();
    next := session.ShowNextNoun();
    summary := session.LevelFeedback();
  }

  /** Answering "mouses" keeps the noun in the pool, so it is shown again. */
  method WrongAnswerSession() returns (answered: SubmitOutcome, next: DrawOutcome, poolSize: nat,
                                       score: nat, trials: nat)
    ensures answered == Incorrect("mouse", "mice")
    ensures next == Shown("mouse")
    ensures poolSize == 1 && score == 0 && trials == 1
  {
    var session := OneNounSession();
    var shown := session.ShowNextNoun();
    answered := session.CheckPlural("mouses");
    next := session.ShowNextNoun();
    poolSize, score, trials := |session.pool|, session.score, session.trials;
  }

  /**
   * Selecting a level again clears the running score and trials but not the
   * level's tally, which keeps counting the answers of the earlier selection.
   */
  method ReselectKeepsTally() returns (trials: nat, tally: Tally)
    ensures trials == 0
    ensures tally == Tally(0, 1)
  {
    var session := OneNounSession();
    var shown := session.ShowNextNoun();
    var answered := session.CheckPlural("mouses");
    var selected := session.SelectLevel("easy");
    trials, tally := session.trials, session.levelScores[Easy];
  }

  /** A session on the catalog mouse/mice, tooth/teeth with level easy selected. */
  method TwoNounSession() returns (session: Session)
    ensures fresh(session) && session.Valid()
    ensures session.pool == [Noun("mouse", "mice", Easy), Noun("tooth", "teeth", Easy)]
    ensures session.currentIndex == -1
  {
    var mouse := Noun("mouse", "mice", Easy);
    var tooth := Noun("tooth", "teeth", Easy);
    session := new Session([mouse, tooth]);
    assert LevelRows([mouse, tooth], Easy) == [mouse, tooth] by {
      assert [mouse, tooth][1..] == [tooth];
    }
    var selected := session.SelectLevel("easy");
  }

  /**
   * Submitting the same correct answer twice: the index is not cleared, so the
   * second submission checks the row that moved into that position, or fails
   * when the answered row was the last one.
   */
  method ResubmitAfterCorrect() returns (picked: int, first: SubmitOutcome, second: SubmitOutcome)
    ensures picked == 0 || picked == 1
    ensures first == (if picked == 0 then Correct("mouse", "mice") else Correct("tooth", "teeth"))
    ensures picked == 0 ==> second == Correct("tooth", "teeth")
    ensures picked == 1 ==> second == IndexOutOfRange
  {
    var session := TwoNounSession();
    var shown := session.ShowNextNoun();
    picked := session.currentIndex;
    if picked == 0 {
      first := session.CheckPlural("mice");
      assert session.pool == [Noun("tooth", "teeth", Easy)];
    } else {
      first := session.CheckPlural("teeth");
      assert |session.pool| == 1;
    }
    second := session.CheckPlural("teeth");
  }
}
