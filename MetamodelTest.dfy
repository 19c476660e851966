/** The evaluation arithmetic of a metamodel test run: which results are
    correct, the 2x2 confusion matrix, and the ratios derived from it. */
module MetamodelTest {
  import opened Common

  /** One entry of `_collect_user_results`: the state of nature, whether the
      decision matched it, and the decision's confidence. */
  datatype UserResult = UserResult(userId: Json, isSwiss: bool, correctlyClassified: bool, confidence: real)

  /** The matrix `[[TP, FN], [FP, TN]]`: rows are the state of nature (Swiss,
      non-Swiss), columns the predicted class. */
  datatype Confusion = Confusion(truePositive: nat, falseNegative: nat, falsePositive: nat, trueNegative: nat)

  /** `_is_correctly_classified`: `(is_swiss and localized) or (not is_swiss and not localized)`,
      on the truth values of the two operands. */
  function IsCorrectlyClassified(isSwiss: bool, localizedSwiss: bool): (r: bool)
    ensures r <==> isSwiss == localizedSwiss
  {
    (isSwiss && localizedSwiss) || (!isSwiss && !localizedSwiss)
  }

  /** How many results have the given state of nature and correctness. */
  function CountCell(results: seq<UserResult>, isSwiss: bool, correct: bool): (n: nat)
    ensures n <= |results|
  {
    if |results| == 0 then 0
    else
      var last := results[|results| - 1];
      CountCell(results[..|results| - 1], isSwiss, correct) +
        (if last.isSwiss == isSwiss && last.correctlyClassified == correct then 1 else 0)
  }

  /** The matrix the results determine, cell by cell. */
  function Tally(results: seq<UserResult>): Confusion
  {
    Confusion(CountCell(results, true, true), CountCell(results, true, false),
              CountCell(results, false, false), CountCell(results, false, true))
  }

  /** `_calculate_confusion_matrix`: each result increments exactly one cell. */
  method CalculateConfusionMatrix(results: seq<UserResult>) returns (m: Confusion)
    ensures m == Tally(results)
  {
    m := Confusion(0, 0, 0, 0);
    var i := 0;
    while i < |results|
      invariant 0 <= i <= |results|
      invariant m == Tally(results[..i])
    {
      var r := results[i];
      assert results[..i + 1][..i] == results[..i];
      if r.isSwiss && r.correctlyClassified {
        m := m.(truePositive := m.truePositive + 1);
      } else if r.isSwiss && !r.correctlyClassified {
        m := m.(falseNegative := m.falseNegative + 1);
      } else if !r.isSwiss && !r.correctlyClassified {
        m := m.(falsePositive := m.falsePositive + 1);
      } else {
        m := m.(trueNegative := m.trueNegative + 1);
      }
      i := i + 1;
    }
    assert results[..i] == results;
  }

  /** How many results are about Swiss users. */
  function CountSwiss(results: seq<UserResult>, isSwiss: bool): (n: nat)
  {
    if |results| == 0 then 0
    else CountSwiss(results[..|results| - 1], isSwiss) + (if results[|results| - 1].isSwiss == isSwiss then 1 else 0)
  }

  /** How many results are correctly classified. */
  function CountCorrect(results: seq<UserResult>): (n: nat)
  {
    if |results| == 0 then 0
    else CountCorrect(results[..|results| - 1]) + (if results[|results| - 1].correctlyClassified then 1 else 0)
  }

  function Total(m: Confusion): nat
  {
    m.truePositive + m.falseNegative + m.falsePositive + m.trueNegative
  }

  /** The cells sum to the number of results. */
  lemma {:induction false} TallyTotal(results: seq<UserResult>)
    ensures Total(Tally(results)) == |results|
  {
    if |results| > 0 {
      TallyTotal(results[..|results| - 1]);
    }
  }

  /** Row 0 counts the Swiss users, row 1 the non-Swiss ones. */
  lemma {:induction false} TallyRows(results: seq<UserResult>, isSwiss: bool)
    ensures CountCell(results, isSwiss, true) + CountCell(results, isSwiss, false) == CountSwiss(results, isSwiss)
  {
    if |results| > 0 {
      TallyRows(results[..|results| - 1], isSwiss);
    }
  }

  /** The diagonal counts the correct decisions. */
  lemma {:induction false} TallyDiagonal(results: seq<UserResult>)
    ensures Tally(results).truePositive + Tally(results).trueNegative == CountCorrect(results)
  {
    if |results| > 0 {
      TallyDiagonal(results[..|results| - 1]);
    }
  }

  /** `_calculate_accuracy`: (TP + TN) / total, or 0 for an empty matrix. */
  function Accuracy(m: Confusion): (a: real)
    ensures 0.0 <= a <= 1.0
    ensures Total(m) == 0 ==> a == 0.0
    ensures Total(m) > 0 ==> a * Total(m) as real == (m.truePositive + m.trueNegative) as real
  {
    var total := Total(m);
    if total == 0 then 0.0
    else Ratio((m.truePositive + m.trueNegative) as real, total as real)
  }

  /** `_calculate_precision`: TP / (TP + FP), or 0 on a zero divisor. */
  function Precision(m: Confusion): (p: real)
    ensures 0.0 <= p <= 1.0
    ensures m.truePositive + m.falsePositive > 0 ==>
              p * (m.truePositive + m.falsePositive) as real == m.truePositive as real
    ensures m.truePositive + m.falsePositive == 0 ==> p == 0.0
  {
    var divisor := m.truePositive + m.falsePositive;
    if divisor == 0 then 0.0 else Ratio(m.truePositive as real, divisor as real)
  }

  /** `_calculate_recall`: TP / (TP + FN), or 0 on a zero divisor. */
  function Recall(m: Confusion): (r: real)
    ensures 0.0 <= r <= 1.0
    ensures m.truePositive + m.falseNegative > 0 ==>
              r * (m.truePositive + m.falseNegative) as real == m.truePositive as real
    ensures m.truePositive + m.falseNegative == 0 ==> r == 0.0
  {
    var divisor := m.truePositive + m.falseNegative;
    if divisor == 0 then 0.0 else Ratio(m.truePositive as real, divisor as real)
  }

  function Min(a: real, b: real): real { if a <= b then a else b }
  function Max(a: real, b: real): real { if a <= b then b else a }

  /** `_calculate_f_measure`: 2PR / (P + R), or 0 when P + R is 0. For P and
      R in [0, 1] it is their harmonic mean, so it lies between them and in [0, 1]. */
  function FMeasure(precision: real, recall: real): (f: real)
    ensures precision + recall == 0.0 ==> f == 0.0
    ensures precision + recall != 0.0 ==> f * (precision + recall) == 2.0 * precision * recall
    ensures 0.0 <= precision && 0.0 <= recall && precision + recall != 0.0 ==>
              Min(precision, recall) <= f <= Max(precision, recall)
    ensures 0.0 <= precision <= 1.0 && 0.0 <= recall <= 1.0 ==> 0.0 <= f <= 1.0
  {
    var divisor := precision + recall;
    if divisor == 0.0 then 0.0
    else
      var f := (2.0 * precision * recall) / divisor;
      assert f * divisor == 2.0 * precision * recall;
      if 0.0 <= precision && 0.0 <= recall then
        HarmonicBetween(precision, recall, f);
        f
      else f
  }

  /** The step behind the harmonic-mean bounds. */
  lemma HarmonicBetween(p: real, r: real, f: real)
    requires 0.0 <= p && 0.0 <= r && p + r > 0.0
    requires f * (p + r) == 2.0 * p * r
    ensures Min(p, r) <= f <= Max(p, r)
  {
    var lo, hi := Min(p, r), Max(p, r);
    assert lo * (p + r) <= 2.0 * p * r by {
      assert lo * p <= r * p && lo * r <= p * r;
    }
    assert 2.0 * p * r <= hi * (p + r) by {
      assert r * p <= hi * p && p * r <= hi * r;
    }
    if f < lo {
      MulStrict(f, lo, p + r);
    }
    if f > hi {
      MulStrict(hi, f, p + r);
    }
  }

  /** `_map_to_0_1`: 2 (v − 0.5), an increasing map of [0.5, 1] onto [0, 1]. */
  function MapTo01(v: real): (r: real)
    ensures 0.5 <= v <= 1.0 <==> 0.0 <= r <= 1.0
    ensures r / 2.0 + 0.5 == v
  {
    2.0 * (v - 0.5)
  }

  /** One result's contribution to the confidence performance index. */
  function CpiTerm(res: UserResult): real
  {
    if res.correctlyClassified then MapTo01(res.confidence) else 1.0 - MapTo01(res.confidence)
  }

  function CpiSum(results: seq<UserResult>): real
  {
    if |results| == 0 then 0.0 else CpiSum(results[..|results| - 1]) + CpiTerm(results[|results| - 1])
  }

  /** `_calculate_cpi`: the mean contribution; an empty result list divides by zero. */
  method CalculateCpi(results: seq<UserResult>) returns (r: Result<real>)
    ensures |results| == 0 ==> r == Raised("ZeroDivisionError", "division by zero")
    ensures |results| > 0 ==> r == Ok(CpiSum(results) / |results| as real)
  {
    var sum := 0.0;
    var i := 0;
    while i < |results|
      invariant 0 <= i <= |results|
      invariant sum == CpiSum(results[..i])
    {
      assert results[..i + 1][..i] == results[..i];
      sum := sum + CpiTerm(results[i]);
      i := i + 1;
    }
    assert results[..i] == results;
    if |results| == 0 {
      return Raised("ZeroDivisionError", "division by zero");
    }
    r := Ok(sum / |results| as real);
  }

  predicate ConfidencesInRange(results: seq<UserResult>)
  {
    forall i :: 0 <= i < |results| ==> 0.5 <= results[i].confidence <= 1.0
  }

  /** With every confidence in [0.5, 1] (the classifiers' promise), each
      contribution lies in [0, 1], so the index does too. */
  lemma {:induction false} CpiSumBounds(results: seq<UserResult>)
    requires ConfidencesInRange(results)
    ensures 0.0 <= CpiSum(results) <= |results| as real
  {
    if |results| > 0 {
      assert ConfidencesInRange(results[..|results| - 1]);
      CpiSumBounds(results[..|results| - 1]);
    }
  }

  lemma CpiBounds(results: seq<UserResult>)
    requires |results| > 0 && ConfidencesInRange(results)
    ensures 0.0 <= CpiSum(results) / |results| as real <= 1.0
  {
    CpiSumBounds(results);
  }
}
