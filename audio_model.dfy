/** The audio classifier (backend/models/audio_model.py). Feature extraction
    (librosa MFCC and z-score) and the network forward pass with its softmax
    are one input, `infer`, which yields the probability vector for the given
    bytes or raises. */
module AudioModel {
  import opened Base
  import opened Emotions
  import Strings

  /** The real-inference labels; `LabelsWellFormed` shows this is the list
      `[f"emotion_{i}" for i in range(8)]` builds. */
  const LABELS: seq<string> := [
    "emotion_0", "emotion_1", "emotion_2", "emotion_3",
    "emotion_4", "emotion_5", "emotion_6", "emotion_7"
  ]

  /** The fixed result of `_demo_result`, in the dict literal's order. */
  const DEMO_SCORES: Distribution := [
    ("neutral", 0.45), ("calm", 0.20), ("happy", 0.15),
    ("sad", 0.08), ("angry", 0.05), ("fearful", 0.04),
    ("disgust", 0.02), ("surprised", 0.01)
  ]

  lemma LabelsWellFormed()
    ensures LABELS == seq(8, i requires 0 <= i < 8 => "emotion_" + [Strings.DigitChar(i)])
    ensures Distinct(LABELS)
  {
    var built := seq(8, i requires 0 <= i < 8 => "emotion_" + [Strings.DigitChar(i)]);
    assert built[0] == "emotion_0" && built[1] == "emotion_1";
    assert built[2] == "emotion_2" && built[3] == "emotion_3";
    assert built[4] == "emotion_4" && built[5] == "emotion_5";
    assert built[6] == "emotion_6" && built[7] == "emotion_7";
    forall i | 0 <= i < 8
      ensures |LABELS[i]| == 9 && LABELS[i][8] == Strings.DigitChar(i)
    {
    }
  }

  /** No real-inference label is a demo label, so a caller can tell the
      fallback from a real result by its keys. */
  lemma DemoLabelsDisjoint()
    ensures forall i, j :: 0 <= i < |LABELS| && 0 <= j < |DEMO_SCORES| ==> LABELS[i] != DEMO_SCORES[j].0
  {
    forall i | 0 <= i < |LABELS|
      ensures LABELS[i][0] == 'e'
    {
    }
    forall j | 0 <= j < |DEMO_SCORES|
      ensures DEMO_SCORES[j].0 != [] && DEMO_SCORES[j].0[0] != 'e'
    {
    }
  }

  /** Which steps of `__init__` succeed: importing torch, and building
      `SimpleAudioModel` (which imports torch again and builds the network). */
  datatype LoadEnv = LoadEnv(torchOk: bool, netOk: bool)

  predicate LoadSucceeds(env: LoadEnv)
  {
    env.torchOk && env.netOk
  }

  class AudioEmotionModel {
    var hasModel: bool
    var available: bool

    /** `__init__`: any exception leaves `available` false. */
    constructor (env: LoadEnv)
      ensures available == LoadSucceeds(env)
      ensures hasModel == available
    {
      hasModel := false;
      available := false;
      if env.torchOk {
        if env.netOk {
          hasModel := true;
          available := true;
        }
      }
    }

    /** `_demo_result()`: the fixed eight-entry distribution, whose dominant
        label (computed with `max`, as the source does) is "neutral". */
    function DemoResult(): (r: Prediction)
      ensures r.probabilities == DEMO_SCORES
      ensures r.dominant == "neutral"
      ensures Distinct(Keys(r.probabilities))
    {
      var k := FirstMaxIndex(DEMO_SCORES);
      assert DEMO_SCORES[0].1 <= DEMO_SCORES[k].1;
      Prediction(DEMO_SCORES, Dominant(DEMO_SCORES))
    }

    /** `predict_from_bytes(audio_bytes)`. It never raises: the result type
        has no error case. The demo result comes back exactly when the model
        is unavailable, when extraction or inference raises, or when the
        probability vector is empty (then `max` raises, and that is caught
        too); otherwise the mapping pairs `LABELS[i]` with `probs[i]` and the
        dominant label is the first label of largest score. */
    function PredictFromBytes(audioBytes: seq<byte>, infer: seq<byte> -> Outcome<seq<real>>): (r: Prediction)
      reads this
      ensures r == DemoResult() <==>
                (!available || infer(audioBytes).Raised? || |infer(audioBytes).value| == 0)
      ensures r != DemoResult() ==>
                && ScoredBy(r.probabilities, LABELS, infer(audioBytes).value)
                && Distinct(Keys(r.probabilities))
                && IsFirstMax(r.probabilities, r.dominant)
    {
      if !available then DemoResult()
      else
        match infer(audioBytes)
        case Raised(_) => DemoResult()
        case Ok(probs) =>
          LabelsWellFormed();
          var mapping := LabelScores(LABELS, probs);
          if |mapping| == 0 then DemoResult()
          else
            assert mapping[0].0 == LABELS[0] != DEMO_SCORES[0].0;
            Prediction(mapping, Dominant(mapping))
    }
  }
}
