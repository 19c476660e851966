/** A one-feature nearest-mean classifier: training records the mean of
    feature 0 for the positive and the negative rows, a sample is assigned
    to the closer mean, and the confidence grows with the distance from the
    losing mean. The trained-state gate is the shared `Classifier`. */
module SingleFeatureBinaryThreshold {
  import opened Common
  import Classifier

  /** A row of a numpy sample matrix: features, then the true class last. */
  type Row = seq<real>

  predicate WellShaped(rows: seq<Row>)
  {
    forall i :: 0 <= i < |rows| ==> |rows[i]| >= 1
  }

  function Label(row: Row): real
    requires |row| >= 1
  {
    row[|row| - 1]
  }

  /** Column 0 of the rows whose last column equals 1, in row order. */
  function Positives(rows: seq<Row>): seq<real>
    requires WellShaped(rows)
  {
    if |rows| == 0 then []
    else
      var last := rows[|rows| - 1];
      Positives(rows[..|rows| - 1]) + (if Label(last) == 1.0 then [last[0]] else [])
  }

  /** Column 0 of every other row, in row order. */
  function Negatives(rows: seq<Row>): seq<real>
    requires WellShaped(rows)
  {
    if |rows| == 0 then []
    else
      var last := rows[|rows| - 1];
      Negatives(rows[..|rows| - 1]) + (if Label(last) == 1.0 then [] else [last[0]])
  }

  /** Every row lands in exactly one of the two groups. */
  lemma {:induction false} GroupsPartition(rows: seq<Row>)
    requires WellShaped(rows)
    ensures |Positives(rows)| + |Negatives(rows)| == |rows|
  {
    if |rows| > 0 {
      GroupsPartition(rows[..|rows| - 1]);
    }
  }

  function Sum(xs: seq<real>): real
  {
    if |xs| == 0 then 0.0 else Sum(xs[..|xs| - 1]) + xs[|xs| - 1]
  }

  /** `np.array(xs).sum() / len(xs)` for a non-empty group. */
  function Mean(xs: seq<real>): real
    requires |xs| > 0
  {
    Sum(xs) / |xs| as real
  }

  /** Two group sizes over their total sum to one. */
  lemma PriorsSumToOne(a: real, b: real, pa: real, pb: real)
    requires a + b > 0.0 && pa * (a + b) == a && pb * (a + b) == b
    ensures pa + pb == 1.0
  {
    var n := a + b;
    assert (pa + pb - 1.0) * n == 0.0 by {
      assert (pa + pb - 1.0) * n == pa * n + pb * n - n;
    }
    ZeroFactor(pa + pb - 1.0, n);
  }

  /** A factor whose product with a positive number is zero is zero. */
  lemma ZeroFactor(x: real, n: real)
    requires n > 0.0 && x * n == 0.0
    ensures x == 0.0
  {
  }

  function Abs(x: real): real { if x < 0.0 then -x else x }
  function Min(a: real, b: real): real { if a <= b then a else b }
  function Max(a: real, b: real): real { if a <= b then b else a }

  class SingleFeatureBinaryThreshold {
    /** The shared trained-state gate, named "SingleFeatureBinaryThreshold". */
    const base: Classifier.Classifier
    var positiveAvg: real
    var negativeAvg: real
    var deltaPositiveNegative: real
    var priorPositive: real
    var priorNegative: real
    var lowerAverage: real
    var upperAverage: real

    /** The derived fields agree with the two averages. */
    ghost predicate Valid()
      reads this
    {
      && deltaPositiveNegative == Abs(positiveAvg - negativeAvg)
      && lowerAverage == Min(positiveAvg, negativeAvg)
      && upperAverage == Max(positiveAvg, negativeAvg)
      && 0.0 <= priorPositive && 0.0 <= priorNegative
    }

    constructor ()
      ensures fresh(base) && !base.isTrained && base.GetName() == "SingleFeatureBinaryThreshold"
      ensures positiveAvg == negativeAvg == deltaPositiveNegative == 0.0
      ensures priorPositive == priorNegative == lowerAverage == upperAverage == 0.0
      ensures Valid()
    {
      base := new Classifier.Classifier("SingleFeatureBinaryThreshold");
      positiveAvg, negativeAvg, deltaPositiveNegative := 0.0, 0.0, 0.0;
      priorPositive, priorNegative, lowerAverage, upperAverage := 0.0, 0.0, 0.0, 0.0;
    }

    /** `_break_tie`: the class with the larger prior, positive on equal priors. */
    function BreakTie(): (c: int)
      reads this
      ensures c == 0 || c == 1
      ensures c == 1 <==> priorPositive >= priorNegative
    {
      if priorPositive >= priorNegative then 1 else 0
    }

    /** `_predict_class`: the class whose average is strictly nearer, else the tie-break. */
    function PredictClass(deltaPositive: real, deltaNegative: real): (c: int)
      reads this
      ensures c == 0 || c == 1
      ensures deltaPositive < deltaNegative ==> c == 1
      ensures deltaNegative < deltaPositive ==> c == 0
      ensures deltaPositive == deltaNegative ==> c == BreakTie()
    {
      if deltaPositive < deltaNegative then 1
      else if deltaNegative < deltaPositive then 0
      else BreakTie()
    }

    /** `_calculate_confidence`: 0.5 when the averages coincide, otherwise the
        larger relative distance, capped at 1. */
    function Confidence(deltaPositive: real, deltaNegative: real): (p: real)
      reads this
      ensures deltaPositiveNegative == 0.0 ==> p == 0.5
      ensures deltaPositiveNegative != 0.0 ==> p <= 1.0
    {
      if deltaPositiveNegative == 0.0 then 0.5
      else Min(Max(deltaPositive / deltaPositiveNegative, deltaNegative / deltaPositiveNegative), 1.0)
    }

    /** `_classify(sample)`: the distances of feature 0 to both averages decide
        the class and the confidence. */
    function ClassifySample(sample: Row): Classifier.Prediction
      requires |sample| >= 1
      reads this
    {
      var dp, dn := Abs(sample[0] - positiveAvg), Abs(sample[0] - negativeAvg);
      Classifier.Prediction(PredictClass(dp, dn), Confidence(dp, dn))
    }

    /** Nearest mean: the predicted class's average is at least as close to
        the sample as the other one, and the confidence lies in [0.5, 1], as
        the classifier interface documents. */
    lemma ClassifySampleSound(sample: Row)
      requires |sample| >= 1 && Valid()
      ensures var p := ClassifySample(sample);
              && (p.predictedClass == 1 ==> Abs(sample[0] - positiveAvg) <= Abs(sample[0] - negativeAvg))
              && (p.predictedClass == 0 ==> Abs(sample[0] - negativeAvg) <= Abs(sample[0] - positiveAvg))
              && 0.5 <= p.confidence <= 1.0
    {
      var x := sample[0];
      var dp, dn, d := Abs(x - positiveAvg), Abs(x - negativeAvg), deltaPositiveNegative;
      if d != 0.0 {
        var a, b := dp / d, dn / d;
        assert a * d == dp && b * d == dn;
        assert dp + dn >= d;
        assert (a + b) * d == dp + dn;
        if a + b < 1.0 {
          MulStrict(a + b, 1.0, d);
        }
        if a < 0.0 {
          MulStrict(a, 0.0, d);
        }
        if b < 0.0 {
          MulStrict(b, 0.0, d);
        }
        assert Max(a, b) >= 0.5;
      }
    }

    /** How many rows have a true class equal to the predicted class of their first feature. */
    function CorrectCount(rows: seq<Row>): (n: nat)
      requires WellShaped(rows)
      reads this
      ensures n <= |rows|
    {
      if |rows| == 0 then 0
      else
        var last := rows[|rows| - 1];
        CorrectCount(rows[..|rows| - 1]) +
          (if Label(last) == ClassifySample(last[0..1]).predictedClass as real then 1 else 0)
    }

    /** `_calculate_score`'s value: the fraction of correctly predicted rows;
        an empty validation set divides by zero. */
    function Score(validation: seq<Row>): (r: Result<real>)
      requires WellShaped(validation)
      reads this
      ensures r.Ok? <==> |validation| > 0
      ensures r.Ok? ==> 0.0 <= r.value <= 1.0 && r.value * |validation| as real == CorrectCount(validation) as real
    {
      if |validation| == 0 then Raised("ZeroDivisionError", "division by zero")
      else Ok(Ratio(CorrectCount(validation) as real, |validation| as real))
    }

    /** `_calculate_score`: counts the correct predictions in a loop. */
    method CalculateScore(validation: seq<Row>) returns (r: Result<real>)
      requires WellShaped(validation)
      ensures r == Score(validation)
    {
      var numCorrect := 0;
      var i := 0;
      while i < |validation|
        invariant 0 <= i <= |validation|
        invariant numCorrect == CorrectCount(validation[..i])
      {
        var sample := validation[i];
        assert validation[..i + 1][..i] == validation[..i];
        var predicted := ClassifySample(sample[0..1]);
        if Label(sample) == predicted.predictedClass as real {
          numCorrect := numCorrect + 1;
        }
        i := i + 1;
      }
      assert validation[..i] == validation;
      if |validation| == 0 {
        return Raised("ZeroDivisionError", "division by zero");
      }
      r := Ok(Ratio(numCorrect as real, |validation| as real));
    }

    /** The loop at the head of `_train`: feature 0 of each row goes to the
        positives when its last column is 1, and to the negatives otherwise. */
    static method SplitByClass(training: seq<Row>) returns (positives: seq<real>, negatives: seq<real>)
      requires WellShaped(training)
      ensures positives == Positives(training) && negatives == Negatives(training)
    {
      positives, negatives := [], [];
      var i := 0;
      while i < |training|
        invariant 0 <= i <= |training|
        invariant positives == Positives(training[..i]) && negatives == Negatives(training[..i])
      {
        assert training[..i + 1][..i] == training[..i];
        if Label(training[i]) == 1.0 {
          positives := positives + [training[i][0]];
        } else {
          negatives := negatives + [training[i][0]];
        }
        i := i + 1;
      }
      assert training[..i] == training;
    }

    /** The seven assignments of `_train`, from the two non-empty groups. */
    method SetFields(positives: seq<real>, negatives: seq<real>)
      requires |positives| > 0 && |negatives| > 0
      modifies this
      ensures Valid()
      ensures positiveAvg == Mean(positives) && negativeAvg == Mean(negatives)
      ensures priorPositive * (|positives| + |negatives|) as real == |positives| as real
      ensures priorNegative * (|positives| + |negatives|) as real == |negatives| as real
      ensures priorPositive + priorNegative == 1.0
      ensures lowerAverage <= upperAverage
    {
      var n := (|positives| + |negatives|) as real;
      positiveAvg := Sum(positives) / |positives| as real;
      negativeAvg := Sum(negatives) / |negatives| as real;
      deltaPositiveNegative := Abs(positiveAvg - negativeAvg);
      priorPositive := Ratio(|positives| as real, n);
      priorNegative := Ratio(|negatives| as real, n);
      PriorsSumToOne(|positives| as real, |negatives| as real, priorPositive, priorNegative);
      lowerAverage := Min(positiveAvg, negativeAvg);
      upperAverage := Max(positiveAvg, negativeAvg);
    }

    /** `_train`: splits the rows by class in a loop, sets the seven fields
        from the two groups, and returns the validation score. Both classes
        must occur in the training set (see README). */
    method TrainFields(training: seq<Row>, validation: seq<Row>) returns (r: Result<real>)
      requires WellShaped(training) && WellShaped(validation)
      requires |Positives(training)| > 0 && |Negatives(training)| > 0
      modifies this
      ensures Valid()
      ensures positiveAvg == Mean(Positives(training)) && negativeAvg == Mean(Negatives(training))
      ensures priorPositive * |training| as real == |Positives(training)| as real
      ensures priorNegative * |training| as real == |Negatives(training)| as real
      ensures priorPositive + priorNegative == 1.0
      ensures lowerAverage <= upperAverage
      ensures r == Score(validation)
    {
      var positives, negatives := SplitByClass(training);
      GroupsPartition(training);
      SetFields(positives, negatives);
      r := CalculateScore(validation);
    }

    /** `train` of this classifier: `_train`, then the shared gate's check of
        the score. A non-empty validation set gives a float score and marks
        the classifier trained; an empty one raises after the fields are set. */
    method Train(training: seq<Row>, validation: seq<Row>) returns (r: Result<Json>)
      requires WellShaped(training) && WellShaped(validation)
      requires |Positives(training)| > 0 && |Negatives(training)| > 0
      modifies this, base
      ensures Valid()
      ensures positiveAvg == Mean(Positives(training)) && negativeAvg == Mean(Negatives(training))
      ensures priorPositive + priorNegative == 1.0
      ensures |validation| > 0 ==> base.isTrained && r == Ok(JReal(Score(validation).value))
      ensures |validation| == 0 ==> base.isTrained == old(base.isTrained) && r == Raised("ZeroDivisionError", "division by zero")
    {
      var score := TrainFields(training, validation);
      var trained: Result<Json> := if score.Ok? then Ok(JReal(score.value)) else Raised(score.exception, score.message);
      r := base.Train(trained);
    }

    /** `classify(sample)`: refused until trained, then `_classify(sample)`. */
    method Classify(sample: Row) returns (r: Result<Classifier.Prediction>)
      requires |sample| >= 1
      ensures !base.isTrained ==> r == Raised("UntrainedClassifierError", Classifier.UntrainedMessage(base.name))
      ensures base.isTrained ==> r == Ok(ClassifySample(sample))
    {
      r := base.Classify(Ok(ClassifySample(sample)));
    }
  }
}
