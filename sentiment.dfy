/** Sentiment classification: a three-way category from the compound score,
    and the per-review records built from an external polarity scorer. */
module Sentiment {

  datatype Category = Positive | Neutral | Negative

  /** The label the category is reported under. */
  function Label(c: Category): (s: string)
    ensures s in {"positive", "neutral", "negative"}
  {
    match c
    case Positive => "positive"
    case Neutral => "neutral"
    case Negative => "negative"
  }

  /** `categorize_sentiment` as it returns strings: "positive" from 0.05 up,
      "negative" from -0.05 down, "neutral" strictly between. */
  lemma LabelOfCompound(compound: real)
    ensures Label(Categorize(compound)) == "positive" <==> compound >= PositiveThreshold
    ensures Label(Categorize(compound)) == "negative" <==> compound <= NegativeThreshold
    ensures Label(Categorize(compound)) == "neutral" <==>
      NegativeThreshold < compound < PositiveThreshold
  {
  }

  /** Distinct categories are reported under distinct labels. */
  lemma LabelInjective(a: Category, b: Category)
    requires Label(a) == Label(b)
    ensures a == b
  {
  }

  /** The lexicon model's scores of one text. Only `compound` is ever looked at. */
  datatype Scores = Scores(neg: real, neu: real, pos: real, compound: real)

  /** The polarity scorer, a deterministic function of the text. */
  type Scorer = string -> Scores

  datatype SentimentResult = SentimentResult(review: string, scores: Scores, category: Category)

  const PositiveThreshold: real := 0.05
  const NegativeThreshold: real := -0.05

  /** `categorize_sentiment`: both thresholds are inclusive and the positive
      test comes first. */
  function Categorize(compound: real): (c: Category)
    ensures c == Positive <==> compound >= 0.05
    ensures c == Negative <==> compound <= -0.05
    ensures c == Neutral <==> -0.05 < compound < 0.05
  {
    if compound >= PositiveThreshold then Positive
    else if compound <= NegativeThreshold then Negative
    else Neutral
  }

  function Rank(c: Category): int {
    match c
    case Negative => -1
    case Neutral => 0
    case Positive => 1
  }

  /** A higher compound score never gives a lower category. */
  lemma CategorizeMonotone(x: real, y: real)
    requires x <= y
    ensures Rank(Categorize(x)) <= Rank(Categorize(y))
  {
  }

  lemma CategorizeBoundaries()
    ensures Categorize(0.05) == Positive
    ensures Categorize(-0.05) == Negative
    ensures Categorize(0.0) == Neutral
    ensures Categorize(0.0499) == Neutral && Categorize(-0.0499) == Neutral
  {
  }

  /** The record built for one review. */
  function Assess(review: string, scorer: Scorer): SentimentResult {
    var scores := scorer(review);
    SentimentResult(review, scores, Categorize(scores.compound))
  }

  /** The records for a list of reviews, in order: the specification of
      AnalyzeSentiment. */
  function Assessed(reviews: seq<string>, scorer: Scorer): (rs: seq<SentimentResult>)
    ensures |rs| == |reviews|
    ensures forall i :: 0 <= i < |reviews| ==>
      rs[i].review == reviews[i] && rs[i].scores == scorer(reviews[i])
      && rs[i].category == Categorize(scorer(reviews[i]).compound)
  {
    if reviews == [] then []
    else Assessed(reviews[..|reviews| - 1], scorer) + [Assess(reviews[|reviews| - 1], scorer)]
  }

  /** The review texts carried by a list of records. */
  function ReviewsOf(rs: seq<SentimentResult>): seq<string> {
    if rs == [] then [] else ReviewsOf(rs[..|rs| - 1]) + [rs[|rs| - 1].review]
  }

  /** Every review comes back unchanged, once, in its original position. */
  lemma {:induction false} ReviewsOfAssessed(reviews: seq<string>, scorer: Scorer)
    ensures ReviewsOf(Assessed(reviews, scorer)) == reviews
  {
    if reviews != [] {
      var init := reviews[..|reviews| - 1];
      var rs := Assessed(reviews, scorer);
      assert rs[..|rs| - 1] == Assessed(init, scorer);
      ReviewsOfAssessed(init, scorer);
    }
  }

  /** Scoring distributes over concatenation: the records of the reviews of
      several pages are the records of each page, in page order. */
  lemma AssessedAppend(a: seq<string>, b: seq<string>, scorer: Scorer)
    ensures Assessed(a + b, scorer) == Assessed(a, scorer) + Assessed(b, scorer)
  {
    var l, r := Assessed(a + b, scorer), Assessed(a, scorer) + Assessed(b, scorer);
    forall i | 0 <= i < |l| ensures l[i] == r[i] {
      if i < |a| {
        assert (a + b)[i] == a[i];
      } else {
        assert (a + b)[i] == b[i - |a|];
      }
    }
  }

  /** `analyze_sentiment`: score every review in order and record its text,
      its scores and its category. `scored` lists the texts handed to the
      scorer, one per iteration, in the order the calls are made. */
  method AnalyzeSentiment(reviews: seq<string>, scorer: Scorer)
    returns (analysis: seq<SentimentResult>, scored: seq<string>)
    ensures analysis == Assessed(reviews, scorer)
    ensures |analysis| == |reviews|
    ensures forall i :: 0 <= i < |reviews| ==>
      analysis[i].review == reviews[i] && analysis[i].scores == scorer(reviews[i])
      && analysis[i].category == Categorize(scorer(reviews[i]).compound)
    ensures scored == reviews
  {
    analysis, scored := [], [];
    for i := 0 to |reviews|
      invariant analysis == Assessed(reviews[..i], scorer)
      invariant scored == reviews[..i]
    {
      var scores := scorer(reviews[i]);
      scored := scored + [reviews[i]];
      var category := Categorize(scores.compound);
      assert reviews[..i + 1][..i] == reviews[..i];
      analysis := analysis + [SentimentResult(reviews[i], scores, category)];
    }
    assert reviews[..|reviews|] == reviews;
  }
}
