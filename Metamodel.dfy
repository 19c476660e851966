/** The readiness gate and identifiers shared by all metamodels. The
    subclass's `_build` and `_classify`, and the Twitter user lookup, are
    passed in as their outcomes. */
module Metamodel {
  import opened Common
  import Classifier

  /** One `{classifier_name: score}` entry of `training_scores`. */
  datatype TrainingScore = TrainingScore(classifierName: string, score: Json)

  /** What `classify` returns: `(None, None)` for a user that cannot be fetched, else the prediction. */
  datatype Localization = NotFound | Classified(prediction: Classifier.Prediction)

  /** How the subclass's `_build` ended: the scores it appended, and the exception if it raised. */
  datatype BuildOutcome =
    | Built(scores: seq<TrainingScore>)
    | BuildFailed(partial: seq<TrainingScore>, exception: string, message: string)

  /** Python `str.lower()` on one character (ASCII letters only). */
  function LowerChar(c: char): (l: char)
    ensures !('A' <= l <= 'Z')
    ensures 'A' <= c <= 'Z' ==> l as int == c as int + 32
    ensures !('A' <= c <= 'Z') ==> l == c
  {
    if 'A' <= c <= 'Z' then (c as int + 32) as char else c
  }

  /** Python `s.lower()` (ASCII letters only). */
  function Lower(s: string): (r: string)
    ensures |r| == |s|
    ensures forall i :: 0 <= i < |s| ==> r[i] == LowerChar(s[i])
  {
    if |s| == 0 then "" else [LowerChar(s[0])] + Lower(s[1..])
  }

  /** Python `s.replace(from, to)` for one-character `from` and `to`. */
  function ReplaceChar(s: string, from: char, to: char): (r: string)
    ensures |r| == |s|
    ensures forall i :: 0 <= i < |s| ==> r[i] == (if s[i] == from then to else s[i])
  {
    if |s| == 0 then "" else [if s[0] == from then to else s[0]] + ReplaceChar(s[1..], from, to)
  }

  /** `model_name.replace(" ", "_").lower()`: same length, no blanks, no capitals. */
  function ModelId(modelName: string): (id: string)
    ensures |id| == |modelName|
    ensures forall i :: 0 <= i < |id| ==> id[i] != ' ' && !('A' <= id[i] <= 'Z')
  {
    Lower(ReplaceChar(modelName, ' ', '_'))
  }

  /** A model id is already normal: deriving an id from it changes nothing. */
  lemma ModelIdIdempotent(modelName: string)
    ensures ModelId(ModelId(modelName)) == ModelId(modelName)
  {
    var id := ModelId(modelName);
    assert forall i :: 0 <= i < |id| ==> ModelId(id)[i] == id[i];
  }

  /** `model_id + "_" + get_millis_timestamp()` for the clock reading `millis`. */
  function InstanceId(modelId: string, millis: nat): (r: string)
    ensures StartsWith(r, modelId + "_")
    ensures |r| > |modelId| + 1 && AllDigits(r[|modelId| + 1..])
  {
    var r := modelId + "_" + Decimal(millis);
    assert r[..|modelId| + 1] == modelId + "_";
    assert r[|modelId| + 1..] == Decimal(millis);
    r
  }

  /** The instance id determines the clock reading it was made from. */
  lemma InstanceIdMillis(modelId: string, millis: nat)
    ensures DigitsValue(InstanceId(modelId, millis)[|modelId| + 1..]) == millis
  {
    assert InstanceId(modelId, millis)[|modelId| + 1..] == Decimal(millis);
    DigitsValueDecimal(millis);
  }

  /** What `classify` gives on a ready model: the user lookup's exception; (None, None)
      when the lookup finds no user (`fetched` is Ok(false)), without consulting
      `_classify`; otherwise `_classify`'s outcome unchanged. */
  function ReadyOutcome(fetched: Result<bool>, classified: Result<Classifier.Prediction>): (r: Result<Localization>)
    ensures r == Ok(NotFound) <==> fetched == Ok(false)
    ensures fetched.Raised? ==> r == Raised(fetched.exception, fetched.message)
    ensures fetched == Ok(true) ==> (r.Ok? <==> classified.Ok?)
    ensures fetched == Ok(true) && classified.Ok? ==> r == Ok(Classified(classified.value))
    ensures fetched == Ok(true) && classified.Raised? ==> r == Raised(classified.exception, classified.message)
  {
    match fetched
    case Raised(e, m) => Raised(e, m)
    case Ok(found) =>
      if !found then Ok(NotFound)
      else match classified
        case Ok(p) => Ok(Classified(p))
        case Raised(e, m) => Raised(e, m)
  }

  function NotReadyMessage(modelId: string): string
  {
    "Model " + modelId + " not ready, call build() first"
  }

  class Metamodel {
    const modelName: string
    const modelId: string
    const instanceId: string
    var isReady: bool
    var trainingScores: seq<TrainingScore>

    /** `Metamodel.__init__` with the millisecond clock reading `millis`. */
    constructor (name: string, millis: nat)
      ensures modelName == name && modelId == ModelId(name) && instanceId == InstanceId(ModelId(name), millis)
      ensures !isReady && trainingScores == []
    {
      modelName := name;
      modelId := ModelId(name);
      instanceId := InstanceId(ModelId(name), millis);
      isReady := false;
      trainingScores := [];
    }

    /** `build`: runs `_build`; only when it returns does the model become
        ready, and then the accumulated training scores are returned. */
    method Build(outcome: BuildOutcome) returns (r: Result<seq<TrainingScore>>)
      modifies this
      ensures outcome.Built? ==> trainingScores == old(trainingScores) + outcome.scores
      ensures outcome.Built? ==> isReady && r == Ok(trainingScores)
      ensures outcome.BuildFailed? ==> trainingScores == old(trainingScores) + outcome.partial
      ensures outcome.BuildFailed? ==> isReady == old(isReady) && r == Raised(outcome.exception, outcome.message)
    {
      match outcome
      case BuildFailed(partial, exception, message) =>
        trainingScores := trainingScores + partial;
        return Raised(exception, message);
      case Built(scores) =>
        trainingScores := trainingScores + scores;
        isReady := true;
        r := Ok(trainingScores);
    }

    /** `classify(screen_name)`: refused before the model is ready, else `ReadyOutcome`. */
    method Classify(fetched: Result<bool>, classified: Result<Classifier.Prediction>) returns (r: Result<Localization>)
      ensures !isReady ==> r == Raised("MetamodelNotReadyError", NotReadyMessage(modelId))
      ensures isReady ==> r == ReadyOutcome(fetched, classified)
    {
      if !isReady {
        return Raised("MetamodelNotReadyError", NotReadyMessage(modelId));
      }
      match fetched
      case Raised(e, m) => r := Raised(e, m);
      case Ok(found) =>
        if !found {
          r := Ok(NotFound);
        } else {
          match classified
          case Ok(p) => r := Ok(Classified(p));
          case Raised(e, m) => r := Raised(e, m);
        }
    }
  }
}
