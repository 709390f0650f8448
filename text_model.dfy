/** The text classifier (backend/models/text_model.py): a wrapper that loads a
    pretrained sequence classifier and tokenizer when it is constructed, and
    maps a text to scores over the 28 GoEmotions labels. Library loading and the
    forward pass are inputs to the model: `LoadEnv` says which loading steps
    succeed, `Engine` stands for the tokenizer + network and for the elementwise
    sigmoid and the softmax. */
module TextModel {
  import opened Base
  import opened Emotions

  /** The GoEmotions labels, in the order of the classifier's outputs. */
  const LABELS: seq<string> := [
    "admiration", "amusement", "anger", "annoyance", "approval",
    "caring", "confusion", "curiosity", "desire", "disappointment",
    "disapproval", "disgust", "embarrassment", "excitement", "fear",
    "gratitude", "grief", "joy", "love", "nervousness",
    "optimism", "pride", "realization", "relief", "remorse",
    "sadness", "surprise", "neutral"
  ]

  const DEFAULT_MODEL_NAME: string := "distilbert-base-uncased"

  /** Raised by `len(probs)` when a one-wide output squeezes to a 0-d array and
      `tolist()` turns it into a bare float. */
  const SCALAR_LEN_ERROR: string := "object of type 'float' has no len()"

  /** Raised by `max` over an empty mapping. */
  const EMPTY_MAX_ERROR: string := "max() arg is an empty sequence"

  /** Distinctness of the labels in positions `[lo1, hi1)` against those in `[lo2, hi2)`. */
  ghost predicate Apart(lo1: int, hi1: int, lo2: int, hi2: int)
  {
    forall i, j :: lo1 <= i < hi1 && lo2 <= j < hi2 && 0 <= i < j < |LABELS| ==> LABELS[i] != LABELS[j]
  }

  // Distinctness is proved over blocks of seven positions: one lemma for the
  // pairs inside each block and one for each pair of blocks.
  lemma Apart0_0()
    ensures Apart(0, 7, 0, 7)
  {
  }

  lemma Apart0_1()
    ensures Apart(0, 7, 7, 14)
  {
  }

  lemma Apart0_2()
    ensures Apart(0, 7, 14, 21)
  {
  }

  lemma Apart0_3()
    ensures Apart(0, 7, 21, 28)
  {
  }

  lemma Apart1_1()
    ensures Apart(7, 14, 7, 14)
  {
  }

  lemma Apart1_2()
    ensures Apart(7, 14, 14, 21)
  {
  }

  lemma Apart1_3()
    ensures Apart(7, 14, 21, 28)
  {
  }

  lemma Apart2_2()
    ensures Apart(14, 21, 14, 21)
  {
  }

  lemma Apart2_3()
    ensures Apart(14, 21, 21, 28)
  {
  }

  lemma Apart3_3()
    ensures Apart(21, 28, 21, 28)
  {
  }

  lemma LabelsWellFormed()
    ensures |LABELS| == 28
    ensures Distinct(LABELS)
    ensures "neutral" in LABELS && LABELS[27] == "neutral"
  {
    Apart0_0();
    Apart0_1();
    Apart0_2();
    Apart0_3();
    Apart1_1();
    Apart1_2();
    Apart1_3();
    Apart2_2();
    Apart2_3();
    Apart3_3();
  }

  /** Which steps of `__init__` succeed: importing transformers and torch,
      loading the tokenizer, loading the model with a 28-wide head, and the
      retry of the model load without `num_labels`. */
  datatype LoadEnv = LoadEnv(importsOk: bool, tokenizerOk: bool, sizedModelOk: bool, plainModelOk: bool)

  predicate LoadSucceeds(env: LoadEnv)
  {
    env.importsOk && env.tokenizerOk && (env.sizedModelOk || env.plainModelOk)
  }

  /** `forward(text)` is the logits row the tokenizer and network give for
      `text` (or what they raise); `sigmoid` and `softmax` are torch's. */
  datatype Engine = Engine(forward: string -> Outcome<seq<real>>, sigmoid: real -> real, softmax: seq<real> -> seq<real>)

  /** `probs` after lines 49-56: the elementwise sigmoid when the output is as
      wide as the label list, otherwise the softmax of the logits. */
  function ScoreVector(logits: seq<real>, engine: Engine): (p: seq<real>)
    ensures |logits| == |LABELS| ==>
              |p| == |LABELS| && forall i :: 0 <= i < |p| ==> p[i] == engine.sigmoid(logits[i])
    ensures |logits| != |LABELS| ==> p == engine.softmax(logits)
  {
    if |logits| != |LABELS| then engine.softmax(logits)
    else seq(|logits|, i requires 0 <= i < |logits| => engine.sigmoid(logits[i]))
  }

  class TextEmotionModel {
    var modelName: string
    var hasTokenizer: bool
    var hasModel: bool
    /** Whether the model was loaded with a head as wide as `LABELS`. */
    var sizedHead: bool
    var available: bool

    /** `__init__`: every exception of the outer `try` leaves `available`
        false; the inner `try` retries the model load without `num_labels`.
        A tokenizer that loaded stays set even when the model then fails. */
    constructor (modelName: string, env: LoadEnv)
      ensures this.modelName == modelName
      ensures available == LoadSucceeds(env)
      ensures hasTokenizer == (env.importsOk && env.tokenizerOk)
      ensures hasModel == available
      ensures sizedHead == (available && env.sizedModelOk)
    {
      this.modelName := modelName;
      hasTokenizer := false;
      hasModel := false;
      sizedHead := false;
      available := false;
      if env.importsOk && env.tokenizerOk {
        hasTokenizer := true;
        if env.sizedModelOk {
          hasModel := true;
          sizedHead := true;
          available := true;
        } else if env.plainModelOk {
          hasModel := true;
          available := true;
        }
      }
    }

    /** `predict(text)`. Degraded: always `({"neutral": 1.0}, "neutral")`.
        Available: there is no handler, so what the forward pass raises
        propagates; otherwise the mapping pairs `LABELS[i]` with `probs[i]` for
        the first `min(28, len(probs))` positions and the dominant label is the
        first label of largest score. */
    function Predict(text: string, engine: Engine): (r: Outcome<Prediction>)
      reads this
      ensures !available ==> r == Ok(NEUTRAL_ONLY)
      ensures available && engine.forward(text).Raised? ==>
                r == Raised(engine.forward(text).message)
      ensures available && engine.forward(text).Ok? ==>
                var logits := engine.forward(text).value;
                var probs := ScoreVector(logits, engine);
                && (r.Ok? <==> |logits| != 1 && |probs| > 0)
                && (|logits| == 1 ==> r == Raised(SCALAR_LEN_ERROR))
                && (|logits| != 1 && |probs| == 0 ==> r == Raised(EMPTY_MAX_ERROR))
                && (|engine.softmax(logits)| == |logits| ==> (r.Ok? <==> |logits| >= 2))
                && (|logits| == |LABELS| ==> r.Ok? && Keys(r.value.probabilities) == LABELS)
                && (r.Ok? ==>
                      && ScoredBy(r.value.probabilities, LABELS, probs)
                      && Distinct(Keys(r.value.probabilities))
                      && IsFirstMax(r.value.probabilities, r.value.dominant))
    {
      if !available then Ok(NEUTRAL_ONLY)
      else
        match engine.forward(text)
        case Raised(e) => Raised(e)
        case Ok(logits) =>
          if |logits| == 1 then Raised(SCALAR_LEN_ERROR)
          else
            var probs := ScoreVector(logits, engine);
            LabelsWellFormed();
            var mapping := LabelScores(LABELS, probs);
            if |mapping| == 0 then Raised(EMPTY_MAX_ERROR)
            else Ok(Prediction(mapping, Dominant(mapping)))
    }
  }
}
