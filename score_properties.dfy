/**
  What the scorer promises, stated over the specification in `ScoringSpec`
  and therefore over every result `ScoreKeeper.CalculateTraitScores` returns.
 */
module ScoreProperties {
  import opened ScoringSpec

  /** The output names exactly the traits that appear under some question of the table. */
  lemma AllTraitsExact(table: WeightTable, t: Trait)
    ensures t in AllTraits(table) <==> exists q :: Lists(table, q, t)
  {
    if exists q :: Lists(table, q, t) {
      var q :| Lists(table, q, t);
      assert t in table[q];
    }
    if t in AllTraits(table) {
      var q :| q in table && t in table[q];
      assert Lists(table, q, t);
    }
  }

  /** With probabilities in [0, 1] the cumulative score of a trait lies between 0 and its count. */
  lemma {:induction false} CumulativeWithinCount(answers: Answers, table: WeightTable, qs: set<Question>, t: Trait)
    requires ProbabilitiesInRange(table)
    ensures 0.0 <= Cumulative(answers, table, qs, t) <= |Contributors(table, qs, t)| as real
    decreases qs
  {
    if qs != {} {
      var q := Pick(qs);
      CumulativeWithinCount(answers, table, qs - {q}, t);
      ContributorsRemove(table, qs, q, t);
    }
  }

  /** With probabilities in [0, 1] the average of a counted trait lies in [0, 1] as well. */
  lemma RawScoreInRange(answers: Answers, table: WeightTable, t: Trait)
    requires ProbabilitiesInRange(table)
    requires Contributors(table, answers.Keys, t) != {}
    ensures var acc := Accumulated(answers, table, answers.Keys, t);
      0.0 <= acc.cumulativeScore / acc.count as real <= 1.0
  {
    CumulativeWithinCount(answers, table, answers.Keys, t);
    var acc := Accumulated(answers, table, answers.Keys, t);
    assert acc.count > 0;
    DivisionAtMostOne(acc.cumulativeScore, acc.count as real);
  }

  lemma DivisionAtMostOne(x: real, n: real)
    requires 0.0 <= x <= n && n > 0.0
    ensures 0.0 <= x / n <= 1.0
  {
  }

  /** A trait no answered question lists scores exactly 0.0. */
  lemma UncountedTraitScoresZero(answers: Answers, table: WeightTable, t: Trait)
    requires forall q :: q in answers ==> !Lists(table, q, t)
    ensures Score(answers, table, t) == 0.0
  {
  }

  /** When no answered question is in the table at all, every trait scores 0.0. */
  lemma NoKnownAnswerScoresZero(answers: Answers, table: WeightTable)
    requires answers.Keys !! table.Keys
    ensures forall t :: Score(answers, table, t) == 0.0
  {
  }

  /** An answer to a question that is not in the table changes no score. */
  lemma UnknownAnswerIgnored(answers: Answers, table: WeightTable, q: Question, b: bool, t: Trait)
    requires q !in table
    ensures Score(answers[q := b], table, t) == Score(answers, table, t)
  {
    var more := answers[q := b];
    assert Contributors(table, more.Keys, t) == Contributors(table, answers.Keys, t);
    if q in answers {
      assert more.Keys == answers.Keys;
      CumulativeAgree(more, answers, table, answers.Keys, t);
    } else {
      CumulativeRemove(more, table, more.Keys, q, t);
      assert more.Keys - {q} == answers.Keys;
      CumulativeAgree(more, answers, table, answers.Keys, t);
    }
  }

  /** Normalisation is non-decreasing in the average. */
  lemma NormalizedMonotone(a: real, b: real)
    requires a <= b
    ensures Normalized(a) <= Normalized(b)
  {
  }

  /**
    Turning a "no" into a "yes" on a question whose yes-probability for `t`
    is at least its no-probability never lowers the score of `t`.
   */
  lemma YesNeverLowersScore(answers: Answers, table: WeightTable, q: Question, t: Trait)
    requires q in answers && !answers[q] && Lists(table, q, t)
    requires table[q][t].presenceGivenYes >= table[q][t].presenceGivenNo
    ensures Score(answers[q := true], table, t) >= Score(answers, table, t)
  {
    var yes := answers[q := true];
    assert yes.Keys == answers.Keys;
    var rest := answers.Keys - {q};
    CumulativeRemove(yes, table, answers.Keys, q, t);
    CumulativeRemove(answers, table, answers.Keys, q, t);
    CumulativeAgree(yes, answers, table, rest, t);
    var n := |Contributors(table, answers.Keys, t)|;
    assert q in Contributors(table, answers.Keys, t);
    var before := Cumulative(answers, table, answers.Keys, t);
    var after := Cumulative(yes, table, answers.Keys, t);
    assert after >= before;
    DivisionMonotone(before, after, n as real);
    NormalizedMonotone(before / n as real, after / n as real);
  }

  lemma DivisionMonotone(x: real, y: real, n: real)
    requires x <= y && n > 0.0
    ensures x / n <= y / n
  {
  }

  /** `c` added to itself `n` times. */
  ghost function Repeated(c: real, n: nat): real {
    if n == 0 then 0.0 else Repeated(c, n - 1) + c
  }

  lemma {:induction false} RepeatedIsProduct(c: real, n: nat)
    ensures Repeated(c, n) == c * n as real
  {
    if n > 0 {
      RepeatedIsProduct(c, n - 1);
      assert c * n as real == c * (n - 1) as real + c;
    }
  }

  /** When every counted question selects the same presence value `c`, the cumulative score is `c` times the count. */
  lemma {:induction false} CumulativeUniform(answers: Answers, table: WeightTable, qs: set<Question>, t: Trait, c: real)
    requires forall q :: q in qs && Lists(table, q, t) ==> q in answers && PresenceScore(table[q][t], answers[q]) == c
    ensures Cumulative(answers, table, qs, t) == Repeated(c, |Contributors(table, qs, t)|)
    decreases qs
  {
    if qs != {} {
      var q := Pick(qs);
      CumulativeUniform(answers, table, qs - {q}, t, c);
      ContributorsRemove(table, qs, q, t);
      assert Cumulative(answers, table, qs, t) == Cumulative(answers, table, qs - {q}, t) + Contribution(answers, table, q, t);
    } else {
      assert Contributors(table, qs, t) == {};
    }
  }

  /**
    When every answered question that lists `t` selects the same presence
    value `c`, the score of `t` is the normalisation of `c`: 1.0 for `c` = 1.0,
    0.0 for `c` = 0.0, and 0.5 for `c` = 0.5.
   */
  lemma UniformAnswersScore(answers: Answers, table: WeightTable, t: Trait, c: real)
    requires Contributors(table, answers.Keys, t) != {}
    requires forall q :: q in answers && Lists(table, q, t) ==> PresenceScore(table[q][t], answers[q]) == c
    ensures Score(answers, table, t) == Normalized(c)
    ensures c == 1.0 ==> Score(answers, table, t) == 1.0
    ensures c == 0.0 ==> Score(answers, table, t) == 0.0
    ensures c == 0.5 ==> Score(answers, table, t) == 0.5
  {
    CumulativeUniform(answers, table, answers.Keys, t, c);
    RepeatedIsProduct(c, |Contributors(table, answers.Keys, t)|);
    var acc := Accumulated(answers, table, answers.Keys, t);
    var n := acc.count as real;
    assert n > 0.0;
    ProductQuotient(c, n);
    assert acc.cumulativeScore / n == c;
  }

  lemma ProductQuotient(c: real, n: real)
    requires n > 0.0
    ensures (c * n) / n == c
  {
  }

  /**
    One question "Q1" with presence 0.8 given yes and 0.2 given no for
    "Introverted/Extraverted": a yes scores 1.0 (0.5 + 0.3 * 4 = 1.7, clamped),
    a no scores 0.0 (0.5 - 0.3 * 4 = -0.7, clamped), and an answer only to an
    unknown question scores 0.0.
   */
  lemma SingleQuestionExample()
    ensures var table := map["Q1" := map["Introverted/Extraverted" := TraitWeight(0.8, 0.2)]];
      && Score(map["Q1" := true], table, "Introverted/Extraverted") == 1.0
      && Score(map["Q1" := false], table, "Introverted/Extraverted") == 0.0
      && Score(map["Q2" := true], table, "Introverted/Extraverted") == 0.0
  {
    var table := map["Q1" := map["Introverted/Extraverted" := TraitWeight(0.8, 0.2)]];
    var t := "Introverted/Extraverted";
    forall b: bool ensures Score(map["Q1" := b], table, t) == Normalized(if b then 0.8 else 0.2) {
      assert "Q1" in Contributors(table, map["Q1" := b].Keys, t);
      UniformAnswersScore(map["Q1" := b], table, t, if b then 0.8 else 0.2);
    }
    assert "Q2" != "Q1";
    UncountedTraitScoresZero(map["Q2" := true], table, t);
  }
}
