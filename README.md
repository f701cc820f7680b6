# Trait scorer of the solstice personality backend, in Dafny

The backend turns a user's yes/no survey answers into one score in [0, 1]
per personality trait. It uses a static weight table. The table maps each
question to the traits it bears on. For each of those traits it gives the
presence probability when the question is answered "yes" and the one when it
is answered "no". Scoring has three steps, all in
`ScoreKeeper._calculate_trait_scores`:

1. Every trait named anywhere in the table gets an accumulator holding a
   cumulative score of 0.0 and a count of 0.
2. Each answered question that is in the table adds the selected presence
   value to each of its traits, and increments their counts. Questions not in
   the table are skipped.
3. Each trait's average is stretched by a factor of 4 around 0.5 and clamped
   to [0, 1]. A trait with count 0 scores 0.0.

The request handler refuses an empty answer set with "Answers cannot be
empty" before any scoring happens.

Files:

- `scoring_spec.dfy` (module `ScoringSpec`): the data model. A `TraitWeight`
  record holds the two presence probabilities. `WeightTable` is
  `map<Question, map<Trait, TraitWeight>>` and `Answers` is
  `map<Question, bool>`. The module also holds the specification of what the
  scorer computes. `Accumulated(answers, table, qs, t)` is the accumulator of
  trait `t` once the questions `qs` have been read. Its cumulative score is a
  sum over `qs` and its count is the number of questions in `qs` that list
  `t`. `Score` is the final value of one trait. The module proves that the
  sum does not depend on the order in which the questions are read.
- `score_keeper.dfy` (module `ScoreKeeper`): the scorer as the service runs
  it. Loops over the answers and over each question's traits update a map of
  accumulators. A second loop fills the map of normalised scores.
  `CalculateIndividual` is the entry point and `CalculateScores` is the
  handler's empty-answers check. Every method is proved against
  `ScoringSpec`.
- `score_properties.dfy` (module `ScoreProperties`): the promises of the
  scorer as lemmas about `Score`. They hold for every result of the methods.

Scores are Dafny `real`s. The dictionary loops of the source become loops
that pick any key not yet processed. Because real addition is associative
and commutative, the result is the same for every order. So the order of the
source's dictionaries plays no part.

The source amplifies with two branches: `0.5 + (raw - 0.5) * 4` above the
midpoint and `0.5 - (0.5 - raw) * 4` otherwise. `NormalizeScores` keeps the
two branches. It is proved equal to the one-line reference `Normalized`,
which is `Clamp(0.5 + (raw - 0.5) * 4)`.

The service keeps its weight table in a process-wide singleton loaded from a
file. Here the table is an explicit parameter of every operation.

## Model

| member | source | states |
|---|---|---|
| ScoreKeeper.AccumulateAnswers | app/main.py:86-93 | the accumulators cover exactly the traits of the table; each trait's count is the number of answered in-table questions that list it, and its cumulative score is the sum of their selected presence values |
| ScoreKeeper.AddAnswer | app/main.py:89-93 | one answered question: when it is in the table, each trait it lists gains the presence value its answer selects and one count; every other accumulator is unchanged |
| ScoreKeeper.AddAnswerTracks | app/main.py:88-93 | after one more question is read, the accumulators equal the specification for the questions read so far plus that one |
| ScoreKeeper.NormalizeScores | app/main.py:95-107 | one score per accumulator, for the same keys; the two-branch amplification followed by min/max equals the reference `TraitScore`, and a count of 0 gives 0.0 |
| ScoreKeeper.CalculateTraitScores | app/main.py:85-109 | the output's keys are exactly the table's traits; every score is in [0, 1]; a trait that no answered question lists scores 0.0; otherwise the score is the specified `Score` |
| ScoreKeeper.CalculateIndividual | app/main.py:111-112 | the entry point returns the scores of `CalculateTraitScores` for the table it is given |
| ScoreKeeper.CalculateScores | app/main.py:119-122 | the answer set is refused exactly when it is empty, with the message "Answers cannot be empty"; any non-empty set is scored, for every trait of the table |
| ScoreKeeper.ScoreTwice | app/main.py:111-112 | two calls with the same answers and table return the same map |
| ScoringSpec.Clamp | app/main.py:104 | the result is in [0, 1]; it is the input when the input is in range, 0.0 below it and 1.0 above it |
| ScoringSpec.Normalized | app/main.py:98-104 | the result is in [0, 1]; an average of exactly 0.5 gives 0.5; 0.625 and above give 1.0; 0.375 and below give 0.0; in between the score is 4 × average − 1.5 |
| ScoringSpec.TraitScore | app/main.py:97-106 | a trait with count 0 scores 0.0; otherwise it scores the normalised average cumulative / count; the score is always in [0, 1] |
| ScoringSpec.CumulativeRemove | app/main.py:88-93 | any question can be taken out of a cumulative sum first, so the order in which the answers are read does not change the cumulative score |
| ScoringSpec.ContributorsRemove | app/main.py:90-93 | taking a question out of a set lowers a trait's count by one if the question lists that trait, and leaves it unchanged otherwise |
| ScoringSpec.AccumulatedStep | app/main.py:90-93 | reading one more question adds its selected presence value to a trait's cumulative score, and 1 to its count, exactly when the question is in the table and lists the trait |
| ScoringSpec.CumulativeAgree | app/main.py:88-91 | two answer sets that agree on every question listing a trait give that trait the same cumulative score |
| ScoreProperties.AllTraitsExact | app/main.py:86 | a trait gets an accumulator, and so an output entry, exactly when some question of the table lists it: none is omitted and none is invented |
| ScoreProperties.CumulativeWithinCount | app/main.py:91-93 | when every presence probability is in [0, 1], a trait's cumulative score lies between 0 and its count |
| ScoreProperties.RawScoreInRange | app/main.py:98 | when every presence probability is in [0, 1], the average of a counted trait is in [0, 1] |
| ScoreProperties.UncountedTraitScoresZero | app/main.py:105-106 | a trait that no answered question lists scores exactly 0.0 |
| ScoreProperties.NoKnownAnswerScoresZero | app/main.py:88-106 | when no answered question is in the table, every trait scores 0.0 |
| ScoreProperties.UnknownAnswerIgnored | app/main.py:89 | adding or changing the answer to a question that is not in the table changes no score |
| ScoreProperties.NormalizedMonotone | app/main.py:100-104 | normalisation is non-decreasing in the average |
| ScoreProperties.YesNeverLowersScore | app/main.py:91-104 | turning a "no" into a "yes" on a question whose yes-probability for a trait is at least its no-probability never lowers that trait's score |
| ScoreProperties.CumulativeUniform | app/main.py:90-93 | when every counted question selects the same presence value c, the cumulative score is c added once per counted question |
| ScoreProperties.UniformAnswersScore | app/main.py:97-104 | when every counted answer selects the same value c, the trait scores Normalized(c): 1.0 for c = 1, 0.0 for c = 0, and 0.5 for c = 0.5 |
| ScoreProperties.SingleQuestionExample | app/main.py:85-109 | with one question having presence 0.8 / 0.2, "yes" scores 1.0, "no" scores 0.0, and an answer to an unknown question scores 0.0 |

## Left out

- The FastAPI application, the route decorator, the pydantic `UserAnswers` request model and the mapping of errors to HTTP 400 and 500 (app/main.py:11, 63-64, 115-129). They are HTTP glue. `CalculateScores` keeps only the empty-answers refusal and its message.
- `_load_weights`, which reads `./scores.json` with `json.load` (app/main.py:78-83). It is file I/O and foreign parsing. The table is a parameter, and a load failure is not modelled.
- The singleton `__new__` of `ScoreKeeper` (app/main.py:71-75). It manages a process-wide instance, not scoring logic.
- The logging calls (app/main.py:7-9, 118, 123, 126). They have side effects only.
- The `trait_names` catalog (app/main.py:14-61). It is presentation data that scoring never reads.
- IEEE-754 floating point. Scores are exact reals, so float rounding and the order of float summation are not modelled.
- A weight entry without `presence_given_yes` or `presence_given_no`. In the source that raises a `KeyError`, which becomes an HTTP 500. Here `TraitWeight` always has both fields, so a malformed table cannot be written down.
- A configuration error for an empty weight table. A table with no traits is not reported as an error: the source returns an empty score map, and `CalculateTraitScores` does the same.
