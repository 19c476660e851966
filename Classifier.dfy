/** The trained-state gate every classifier shares: `classify` is refused
    until `train` has returned a numeric validation score. The subclass hooks
    `_train` and `_classify` are what the caller passes in as their outcome. */
module Classifier {
  import opened Common

  /** A sample's predicted class (1 positive, 0 negative) and its confidence. */
  datatype Prediction = Prediction(predictedClass: int, confidence: real)

  function UntrainedMessage(name: string): string
  {
    "Classification request on untrained classifier " + name
  }

  /** `isinstance(score, int) or isinstance(score, float)`; a Python bool is an int. */
  predicate IsNumber(score: Json)
  {
    score.JInt? || score.JReal? || score.JBool?
  }

  class Classifier {
    const name: string
    var isTrained: bool

    function GetName(): string
    {
      name
    }

    constructor (classifierName: string)
      ensures !isTrained
      ensures GetName() == classifierName
    {
      name := classifierName;
      isTrained := false;
    }

    /** `train`: runs the subclass's `_train` (whose outcome is `trained`);
        a non-numeric score fails the assertion. Only a numeric score marks
        the classifier trained, and that score is returned unchanged. */
    method Train(trained: Result<Json>) returns (r: Result<Json>)
      modifies this
      ensures trained.Ok? && IsNumber(trained.value) ==> isTrained && r == trained
      ensures trained.Ok? && !IsNumber(trained.value) ==> isTrained == old(isTrained) && r == Raised("AssertionError", "")
      ensures trained.Raised? ==> isTrained == old(isTrained) && r == trained
    {
      if trained.Raised? {
        return trained;
      }
      if !IsNumber(trained.value) {
        return Raised("AssertionError", "");
      }
      isTrained := true;
      r := trained;
    }

    /** `classify`: refused with UntrainedClassifierError before training,
        otherwise the subclass's `_classify` outcome is passed through. */
    method Classify(classified: Result<Prediction>) returns (r: Result<Prediction>)
      ensures !isTrained ==> r == Raised("UntrainedClassifierError", UntrainedMessage(name))
      ensures isTrained ==> r == classified
    {
      if !isTrained {
        return Raised("UntrainedClassifierError", UntrainedMessage(name));
      }
      r := classified;
    }
  }

  /** Training that fails leaves a new classifier untrained, so it still refuses to classify. */
  method UntrainedAfterFailedTraining(name: string, trained: Result<Json>, classified: Result<Prediction>)
    returns (r: Result<Prediction>)
    requires trained.Raised? || !IsNumber(trained.value)
    ensures r == Raised("UntrainedClassifierError", UntrainedMessage(name))
  {
    var c := new Classifier(name);
    var _ := c.Train(trained);
    r := c.Classify(classified);
  }
}
