/**
  The trait scorer itself, step by step as the service runs it: one pass over
  the answers that updates a map of per-trait accumulators, then one pass over
  the accumulators that fills the map of normalised scores. Each method is
  proved against the specification in `ScoringSpec`.
 */
module ScoreKeeper {
  import opened ScoringSpec

  datatype Result<T> = Ok(value: T) | Err(message: string)

  /** The message that rejects an empty answer set. */
  const EmptyAnswersMessage: string := "Answers cannot be empty"

  function Max(a: real, b: real): real { if a >= b then a else b }
  function Min(a: real, b: real): real { if a <= b then a else b }

  /**
    Steps 1 and 2: a zeroed accumulator for every trait of the table, then
    each answered question read in turn.
   */
  method AccumulateAnswers(answers: Answers, table: WeightTable) returns (acc: map<Trait, Accumulator>)
    ensures acc.Keys == AllTraits(table)
    ensures forall t :: t in acc ==> acc[t] == Accumulated(answers, table, answers.Keys, t)
  {
    acc := map t | t in AllTraits(table) :: Accumulator(0.0, 0);
    var pending := answers.Keys;
    ghost var done: set<Question> := {};
    while pending != {}
      invariant pending !! done && pending + done == answers.Keys
      invariant acc.Keys == AllTraits(table)
      invariant forall t :: t in acc ==> acc[t] == Accumulated(answers, table, done, t)
      decreases pending
    {
      var question :| question in pending;
      ghost var before := acc;
      assert question in table ==> table[question].Keys <= acc.Keys;
      acc := AddAnswer(acc, answers, table, question);
      AddAnswerTracks(before, acc, answers, table, done, question);
      pending := pending - {question};
      done := done + {question};
    }
  }

  /**
    The body of step 2 for one answered question: when the question is in
    the table, the presence value its answer selects is added to each of its
    traits and their counts are incremented; otherwise nothing changes.
   */
  method AddAnswer(acc: map<Trait, Accumulator>, answers: Answers, table: WeightTable, question: Question)
    returns (next: map<Trait, Accumulator>)
    requires question in answers
    requires question in table ==> table[question].Keys <= acc.Keys
    ensures next.Keys == acc.Keys
    ensures forall t :: t in next ==>
      next[t] == if Lists(table, question, t)
                 then Accumulator(acc[t].cumulativeScore + Contribution(answers, table, question, t), acc[t].count + 1)
                 else acc[t]
  {
    next := acc;
    var answer := answers[question];
    if question in table {
      var traits := table[question];
      var rest := traits.Keys;
      while rest != {}
        invariant rest <= traits.Keys
        invariant next.Keys == acc.Keys
        invariant forall t :: t in next && t in traits && t !in rest ==>
          next[t] == Accumulator(acc[t].cumulativeScore + PresenceScore(traits[t], answer), acc[t].count + 1)
        invariant forall t :: t in next && (t !in traits || t in rest) ==> next[t] == acc[t]
        decreases rest
      {
        var traitName :| traitName in rest;
        var presenceScore := PresenceScore(traits[traitName], answer);
        next := next[traitName := Accumulator(next[traitName].cumulativeScore + presenceScore, next[traitName].count + 1)];
        rest := rest - {traitName};
      }
    }
  }

  /** One call of `AddAnswer` turns the accumulators of the questions `done` into those of `done + {question}`. */
  lemma AddAnswerTracks(acc: map<Trait, Accumulator>, next: map<Trait, Accumulator>, answers: Answers, table: WeightTable,
                        done: set<Question>, question: Question)
    requires question !in done
    requires forall t :: t in acc ==> acc[t] == Accumulated(answers, table, done, t)
    requires next.Keys == acc.Keys
    requires forall t :: t in next ==>
      next[t] == if Lists(table, question, t)
                 then Accumulator(acc[t].cumulativeScore + Contribution(answers, table, question, t), acc[t].count + 1)
                 else acc[t]
    ensures forall t :: t in next ==> next[t] == Accumulated(answers, table, done + {question}, t)
  {
    forall t | t in next
      ensures next[t] == Accumulated(answers, table, done + {question}, t)
    {
      AccumulatedStep(answers, table, done, question, t);
    }
  }

  /** Step 3: each accumulator averaged, amplified around 0.5 and clamped; 0.0 where nothing was counted. */
  method NormalizeScores(acc: map<Trait, Accumulator>) returns (scores: map<Trait, real>)
    ensures scores.Keys == acc.Keys
    ensures forall t :: t in scores ==> scores[t] == TraitScore(acc[t])
  {
    scores := map[];
    var pending := acc.Keys;
    while pending != {}
      invariant pending <= acc.Keys
      invariant scores.Keys == acc.Keys - pending
      invariant forall t :: t in scores ==> scores[t] == TraitScore(acc[t])
      decreases pending
    {
      var traitName :| traitName in pending;
      var data := acc[traitName];
      var normalizedScore: real;
      if data.count > 0 {
        var rawScore := data.cumulativeScore / data.count as real;
        var weight := Weight;
        var weightedScore: real;
        if rawScore > 0.5 {
          weightedScore := 0.5 + (rawScore - 0.5) * weight;
        } else {
          weightedScore := 0.5 - (0.5 - rawScore) * weight;
        }
        normalizedScore := Min(Max(weightedScore, 0.0), 1.0);
      } else {
        normalizedScore := 0.0;
      }
      scores := scores[traitName := normalizedScore];
      pending := pending - {traitName};
    }
  }

  /**
    One score per trait of the table: exactly the traits of the table, each
    in [0, 1], 0.0 for a trait no answered question lists, and otherwise the
    normalised average of the selected presence values.
   */
  method CalculateTraitScores(answers: Answers, table: WeightTable) returns (scores: map<Trait, real>)
    ensures scores.Keys == AllTraits(table)
    ensures forall t :: t in scores ==> scores[t] == Score(answers, table, t)
    ensures forall t :: t in scores ==> 0.0 <= scores[t] <= 1.0
    ensures forall t :: t in scores && Contributors(table, answers.Keys, t) == {} ==> scores[t] == 0.0
  {
    var acc := AccumulateAnswers(answers, table);
    scores := NormalizeScores(acc);
  }

  /** The public entry point of the score keeper; it scores with the table it is given. */
  method CalculateIndividual(answers: Answers, table: WeightTable) returns (scores: map<Trait, real>)
    ensures scores.Keys == AllTraits(table)
    ensures forall t :: t in scores ==> scores[t] == Score(answers, table, t)
  {
    scores := CalculateTraitScores(answers, table);
  }

  /** The request handler: an empty answer set is refused before anything is scored. */
  method CalculateScores(answers: Answers, table: WeightTable) returns (r: Result<map<Trait, real>>)
    ensures r.Err? <==> answers == map[]
    ensures r.Err? ==> r.message == EmptyAnswersMessage
    ensures r.Ok? ==> r.value.Keys == AllTraits(table)
    ensures r.Ok? ==> forall t :: t in r.value ==> r.value[t] == Score(answers, table, t)
  {
    if answers == map[] {
      return Err(EmptyAnswersMessage);
    }
    var scores := CalculateIndividual(answers, table);
    return Ok(scores);
  }

  /** Scoring is a function of its inputs: two calls with the same answers and table agree. */
  method ScoreTwice(answers: Answers, table: WeightTable) returns (first: map<Trait, real>, second: map<Trait, real>)
    ensures first == second
  {
    first := CalculateIndividual(answers, table);
    second := CalculateIndividual(answers, table);
    assert forall t :: t in first ==> first[t] == second[t];
  }
}
