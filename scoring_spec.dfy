/**
  The data of the trait scorer and the specification of what it computes.

  A weight table maps each question to the traits it bears on, and each of
  those traits to two presence probabilities: the one that applies when the
  question is answered "yes" and the one that applies when it is answered
  "no". An answer set maps questions to yes/no. For every trait named in the
  table the scorer averages the presence values of the answered questions
  that list it, stretches that average around the midpoint 0.5 and clamps the
  result to [0, 1].

  Scores are `real`s, so a sum does not depend on the order of its terms;
  this is what lets the sums below range over finite sets of questions.
 */
module ScoringSpec {

  type Question = string
  type Trait = string

  /** The two presence probabilities one question carries for one trait. */
  datatype TraitWeight = TraitWeight(presenceGivenYes: real, presenceGivenNo: real)

  /** Question to trait to presence probabilities. */
  type WeightTable = map<Question, map<Trait, TraitWeight>>

  /** A user's yes/no answers, by question. */
  type Answers = map<Question, bool>

  /** A trait's running total while the answers are read. */
  datatype Accumulator = Accumulator(cumulativeScore: real, count: nat)

  /** The amplification applied around the midpoint. */
  const Weight: real := 4.0

  /** Every trait named under some question of the table. */
  function AllTraits(table: WeightTable): set<Trait>
  {
    set q, t | q in table && t in table[q] :: t
  }

  /** Question `q` is in the table and lists trait `t`. */
  predicate Lists(table: WeightTable, q: Question, t: Trait) {
    q in table && t in table[q]
  }

  /** The presence probability selected by one answer. */
  function PresenceScore(w: TraitWeight, answer: bool): real {
    if answer then w.presenceGivenYes else w.presenceGivenNo
  }

  /** The questions among `qs` that are in the table and list `t`. */
  ghost function Contributors(table: WeightTable, qs: set<Question>, t: Trait): set<Question> {
    set q | q in qs && Lists(table, q, t)
  }

  /** What question `q` adds to the cumulative score of `t`: nothing unless it is answered and lists `t`. */
  function Contribution(answers: Answers, table: WeightTable, q: Question, t: Trait): real {
    if q in answers && Lists(table, q, t) then PresenceScore(table[q][t], answers[q]) else 0.0
  }

  /** Some question of a non-empty set; the same one whenever it is asked of the same set. */
  ghost function Pick(qs: set<Question>): (q: Question)
    requires qs != {}
    ensures q in qs
  {
    var q :| q in qs; q
  }

  /** The sum of the contributions of the questions in `qs` to trait `t`. */
  ghost function Cumulative(answers: Answers, table: WeightTable, qs: set<Question>, t: Trait): real
    decreases qs
  {
    if qs == {} then 0.0
    else
      var q := Pick(qs);
      Cumulative(answers, table, qs - {q}, t) + Contribution(answers, table, q, t)
  }

  /** The accumulator of `t` once exactly the questions `qs` have been read. */
  ghost function Accumulated(answers: Answers, table: WeightTable, qs: set<Question>, t: Trait): Accumulator {
    Accumulator(Cumulative(answers, table, qs, t), |Contributors(table, qs, t)|)
  }

  /** `x` clamped to [0, 1]. */
  function Clamp(x: real): (r: real)
    ensures 0.0 <= r <= 1.0
    ensures 0.0 <= x <= 1.0 ==> r == x
    ensures x < 0.0 ==> r == 0.0
    ensures x > 1.0 ==> r == 1.0
  {
    if x < 0.0 then 0.0 else if x > 1.0 then 1.0 else x
  }

  /**
    The normalised score of an average `raw`: the deviation from 0.5 stretched
    by `Weight`, clamped. This is one line; the scorer writes it as two
    branches, one for each side of the midpoint.
   */
  function Normalized(raw: real): (r: real)
    ensures 0.0 <= r <= 1.0
    ensures raw == 0.5 ==> r == 0.5
    ensures raw >= 0.625 ==> r == 1.0
    ensures raw <= 0.375 ==> r == 0.0
    ensures 0.375 <= raw <= 0.625 ==> r == 4.0 * raw - 1.5
  {
    Clamp(0.5 + (raw - 0.5) * Weight)
  }

  /** The final score of an accumulator: 0.0 when nothing was counted, else the normalised average. */
  function TraitScore(acc: Accumulator): (r: real)
    ensures 0.0 <= r <= 1.0
    ensures acc.count == 0 ==> r == 0.0
    ensures acc.count > 0 ==> r == Normalized(acc.cumulativeScore / acc.count as real)
  {
    if acc.count == 0 then 0.0 else Normalized(acc.cumulativeScore / acc.count as real)
  }

  /** The score of trait `t` for the whole answer set. */
  ghost function Score(answers: Answers, table: WeightTable, t: Trait): real {
    TraitScore(Accumulated(answers, table, answers.Keys, t))
  }

  /** All presence probabilities of the table lie in [0, 1]. */
  ghost predicate ProbabilitiesInRange(table: WeightTable) {
    forall q, t :: q in table && t in table[q] ==>
      0.0 <= table[q][t].presenceGivenYes <= 1.0 && 0.0 <= table[q][t].presenceGivenNo <= 1.0
  }

  // ---------------------------------------------------------------------
  // The cumulative sum does not depend on the order the questions are read
  // ---------------------------------------------------------------------

  /** Any question of `qs` may be taken out of the sum first. */
  lemma {:induction false} CumulativeRemove(answers: Answers, table: WeightTable, qs: set<Question>, p: Question, t: Trait)
    requires p in qs
    ensures Cumulative(answers, table, qs, t)
         == Cumulative(answers, table, qs - {p}, t) + Contribution(answers, table, p, t)
    decreases qs
  {
    var q := Pick(qs);
    if q != p {
      CumulativeRemove(answers, table, qs - {q}, p, t);
      CumulativeRemove(answers, table, qs - {p}, q, t);
      assert qs - {q} - {p} == qs - {p} - {q};
    }
  }

  /** Taking question `q` out of `qs` takes it out of the contributors of `t`, if it was one. */
  lemma ContributorsRemove(table: WeightTable, qs: set<Question>, q: Question, t: Trait)
    requires q in qs
    ensures |Contributors(table, qs, t)| == |Contributors(table, qs - {q}, t)| + (if Lists(table, q, t) then 1 else 0)
  {
    if Lists(table, q, t) {
      assert Contributors(table, qs, t) == Contributors(table, qs - {q}, t) + {q};
    } else {
      assert Contributors(table, qs, t) == Contributors(table, qs - {q}, t);
    }
  }

  /** Reading one more question `q` adds its contribution to `t` and counts it when it lists `t`. */
  lemma AccumulatedStep(answers: Answers, table: WeightTable, done: set<Question>, q: Question, t: Trait)
    requires q !in done
    ensures Accumulated(answers, table, done + {q}, t).cumulativeScore
         == Accumulated(answers, table, done, t).cumulativeScore + Contribution(answers, table, q, t)
    ensures Accumulated(answers, table, done + {q}, t).count
         == Accumulated(answers, table, done, t).count + (if Lists(table, q, t) then 1 else 0)
  {
    CumulativeRemove(answers, table, done + {q}, q, t);
    ContributorsRemove(table, done + {q}, q, t);
    assert done + {q} - {q} == done;
  }

  /** Two answer sets that agree on every question that lists `t` give `t` the same sum. */
  lemma {:induction false} CumulativeAgree(a: Answers, b: Answers, table: WeightTable, qs: set<Question>, t: Trait)
    requires forall q :: q in qs && Lists(table, q, t) ==> (q in a <==> q in b)
    requires forall q :: q in qs && Lists(table, q, t) && q in a ==> a[q] == b[q]
    ensures Cumulative(a, table, qs, t) == Cumulative(b, table, qs, t)
    decreases qs
  {
    if qs != {} {
      var q := Pick(qs);
      CumulativeAgree(a, b, table, qs - {q}, t);
    }
  }
}
