# NounSmart quiz session, modelled in Dafny

NounSmart is a Streamlit page for practising irregular plural nouns. The user
picks a difficulty level, is shown a singular noun, types its plural and is
told whether it was right. The page keeps a running score and a score per
level, and it rates the level once every noun of it has been answered
correctly. This project models the logic in `irregulars.py` that sits under
the page, and proves properties of it:

- `Text` (`text.dfy`): ASCII lower-casing, used to compare answers, and
  `split(" ")[0]`. It also renders a count in decimal.
- `Catalog` (`catalog.dfy`): the five levels, the noun rows and the per-level
  filter and count. It also builds the level-selector labels
  `"{level} ({count} items)"` and proves they parse back.
- `Feedback` (`feedback.dfy`): the six-tier classification of a level's
  score/trials ratio, using exact integer comparisons.
- `Quiz` (`quiz.dfy`): the session state as a class `Session` with fields
  `pool`, `currentLevel`, `score`, `trials`, `currentIndex` and `levelScores`.
  Its methods are `SelectLevel` (`reset_level`), `ShowNextNoun`
  (`show_next_noun`) and `CheckPlural` (`check_plural`). Its functions are
  `LevelFeedback` (`generate_feedback`) and `CompletionFeedback`, the condition
  under which the page shows the rating.
- `Scenarios` (`scenarios.dfy`): complete sessions on one- and two-noun
  catalogs, with the outcomes stated as postconditions.

Each state-changing method keeps `Session.Valid()`. This invariant says:

- the pool holds only catalog rows of the current level;
- the index is -1 or at most the pool's size;
- no score exceeds its trials, both overall and per level;
- the current level's tally is at least the running score and trials;
- the running score plus the pool's size equals the level's row count.

Two behaviours of the code are kept on purpose:

- Selecting a level never resets `levelScores`. A level's tally therefore
  adds up across repeated selections of that level, while `score` and
  `trials` start again at 0 (`Scenarios.ReselectKeepsTally`).
- A correct answer drops the row but leaves `currentIndex` where it was. A
  second submit then checks the row that moved into that position. If the
  dropped row was the last of two or more, the index equals the pool's size
  and the `iloc` lookup fails before anything is counted (`IndexOutOfRange`,
  `Scenarios.ResubmitAfterCorrect`). If it was the only row left, the pool
  is now empty and the submit reports the running score (`Finished`).

Other behaviours of `irregulars.py` worth noting:

- `reset_level` receives the level as a string taken from the selector
  label. A string that names no level matches no row, so it takes the "no
  nouns" path and changes nothing.
- The remaining nouns are an ordered table. `iloc` picks a row by position,
  so the pool is a sequence.
- The quiz state keeps only the position of the noun on show
  (`current_index`); the singular on screen is a display key.

## Model

| member | source | states |
|---|---|---|
| Catalog.LevelName | irregulars.py:13 | every level name is non-empty and holds no space |
| Catalog.LevelNamed | irregulars.py:120 | the level recovered from a name, if any, carries exactly that name |
| Catalog.LevelNamedComplete | irregulars.py:13 | every level name is recognised as its own level, so no two levels share a name |
| Catalog.UnknownNameHasNoRows | irregulars.py:32 | a string that names no level is not the Level text of any catalog row, so filtering by it finds nothing |
| Catalog.LevelRows | irregulars.py:32 | the filtered rows are exactly the catalog rows of that level, with the same multiplicities |
| Catalog.CountAt | irregulars.py:10 | the per-level count never exceeds the number of rows |
| Catalog.CountAtZeroIff | irregulars.py:12 | the count is 0, the default of `get`, exactly when no row carries the level |
| Catalog.LevelRowsCount | irregulars.py:10 | the number of filtered rows equals the per-level count shown in the label |
| Catalog.LevelRowsEmptyIff | irregulars.py:33 | a level has no rows exactly when no catalog row carries it |
| Catalog.Label | irregulars.py:12 | a label starts with the level name followed by a space |
| Catalog.LevelLabels | irregulars.py:11-14 | one label per level, in selector order, each built from the level's name and row count, and each parsing back to its level when split at the first space |
| Catalog.LabelFirstField | irregulars.py:12 | splitting a built label at its first space gives back the level name, for every level and count |
| Catalog.LabelsSelectTheirLevel | irregulars.py:120 | the label of every level, built with that level's count, parses back to the level |
| Text.Lower | irregulars.py:77 | lower-casing keeps the length, maps each character by ASCII case folding and leaves no upper-case letter |
| Text.LowerIdempotent | irregulars.py:77 | lower-casing twice is the same as lower-casing once |
| Text.LowerCharEqualIff | irregulars.py:77 | two characters lower-case alike exactly when they are equal or are the same ASCII letter in upper and lower case |
| Text.LowerEqualIff | irregulars.py:77 | two strings lower-case to the same string exactly when they have the same length and agree at every position up to ASCII case |
| Text.LowerOfUpper | irregulars.py:77 | an upper-cased string lower-cases to the same string as the original |
| Text.FirstField | irregulars.py:120 | `split(" ")[0]` is a prefix of its input, holds no space and stops at the first space or at the end |
| Text.FirstFieldOfJoin | irregulars.py:120 | whatever follows the first space does not affect `split(" ")[0]` |
| Text.NatToString | irregulars.py:12 | the rendered count is a non-empty string of decimal digits with no leading zero |
| Text.NatToStringValue | irregulars.py:12 | reading the rendered count back gives the count |
| Quiz.AnswerMatches | irregulars.py:77 | an answer is accepted exactly when each of its characters equals the plural's, or is the same ASCII letter in the other case |
| Quiz.ShoutedAnswerMatches | irregulars.py:77 | the plural typed in capitals is accepted |
| Quiz.RemoveAt | irregulars.py:82 | dropping the row at a position loses exactly that row and keeps the others in their order |
| Quiz.InitialScores | irregulars.py:25 | every level starts with a tally of 0 out of 0 |
| Quiz.Session.constructor | irregulars.py:17-26 | a new session has an empty pool, no level, index -1, zero counters and a zero tally for each level |
| Quiz.Session.SelectLevel | irregulars.py:31-41 | a level with rows gets exactly its rows in catalog order as the pool, becomes the current level, gets zero counters and index -1, and keeps every tally; a name with no rows changes nothing |
| Quiz.Session.ShowNextNoun | irregulars.py:44-53 | an empty pool reports the score and changes nothing; otherwise only the index changes, to some valid position, and that row's singular is shown |
| Quiz.Session.CheckPlural | irregulars.py:56-86 | empty pool, then no index, then an index past the end: each changes nothing; otherwise trials and the level's trials rise by one, and the score, the level's score and removal of the row happen exactly when the answer matches ignoring case |
| Quiz.Session.LevelFeedback | irregulars.py:89-107 | the summary reads the current level's tally, never has a score above its trials, and is "mastered" exactly when every trial was correct |
| Quiz.Session.CompletionFeedback | irregulars.py:138-139 | the rating appears exactly when a level is chosen and its pool is empty; it then has a running score equal to the level's row count, and the level's tally has at least that many trials |
| Feedback.Classify | irregulars.py:92-105 | the first-match table equals six disjoint bands: 100%, (80,100), (60,80], (40,60], (20,40], and the rest, which covers no trials, at most 20% and a score above the trials |
| Feedback.NoTrialsEncourage | irregulars.py:92 | no trials counts as 0%, the lowest tier |
| Feedback.EightyPercentIsSteady | irregulars.py:98 | exactly 80% is steady progress, not near mastery |
| Feedback.TwentyPercentEncourages | irregulars.py:104-105 | exactly 20% is the lowest tier |
| Feedback.TierMonotone | irregulars.py:94-105 | for scores no greater than trials, a higher ratio of correct answers never gives a lower tier |
| Scenarios.MiceInCapitals | irregulars.py:77 | "MICE" is accepted for the plural "mice" |
| Scenarios.CorrectAnswerSession | irregulars.py:31-107 | on the catalog mouse/mice, answering "MICE" is correct, empties the pool, and the level is mastered at 1 of 1 |
| Scenarios.WrongAnswerSession | irregulars.py:74-84 | answering "mouses" is incorrect, leaves the pool at one row with score 0 of 1, and the noun is shown again |
| Scenarios.ReselectKeepsTally | irregulars.py:34-38 | selecting a level again resets the running trials to 0 while the level's tally keeps the earlier trial |
| Scenarios.ResubmitAfterCorrect | irregulars.py:82 | submitting again after a correct answer checks the row that moved into the position, or fails if the removed row was the last |

## Left out

- Streamlit rendering is not modelled. This covers titles, text inputs,
  buttons, the select box, success/error/warning messages and the
  `current_noun` and `feedback` session keys. Outcomes are returned as
  datatypes instead.
- The nickname is not modelled: it appears only in messages.
- The page re-runs from the top on each interaction. Each button press is
  modelled as one method call.
- Loading the CSV from its URL is I/O. The catalog is a constructor
  parameter, with each row's Level column taken as one of the five levels.
  The page re-reads the file on every re-run; the model assumes it does not
  change during a session, which `Session.Valid()` relies on.
- Quiz.Session.ShowNextNoun: `random.randint` is a nondeterministic choice of
  a valid position. Its uniform distribution is not modelled.
- Quiz.Session.CheckPlural: the `IndexError` raised by `iloc` is the outcome
  `IndexOutOfRange` with no state change. The traceback Streamlit shows is
  not modelled.
- Quiz.RemoveAt: pandas `drop` by row label is removal by position. This
  assumes unique row labels, as the default `read_csv` index gives.
- Text.Lower: only ASCII letters are case-folded. Python's full Unicode
  `str.lower()` is not modelled.
- Quiz.AnswerMatches: compares answers through `Text.Lower`, so it ignores
  case for ASCII letters only.
- Feedback.Classify: percentages are compared as exact rationals. The code
  computes `(score / trials) * 100` as a float. The two agree unless float
  rounding moves a ratio onto or across a band edge. That needs trial
  counts far beyond one session. The `:.2f` rendering of the percentage is
  not modelled.
- Quiz.Session.LevelFeedback: returns the tier and the tally. The message
  text, emojis and nickname are not modelled.
