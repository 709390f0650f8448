/** The fusion placeholder (backend/models/multimodal.py). */
module Multimodal {
  import opened Base
  import TextModel
  import AudioModel

  /** The dict `{"dominant": ..., "confidence": ...}`. */
  datatype Fused = Fused(dominant: string, confidence: real)

  class MultimodalModel {
    constructor ()
    {
    }

    /** `predict(text, audio_bytes)`: the same verdict for every input, with
        a confidence in [0, 1] and a label that neither classifier uses. */
    function Predict(text: string, audioBytes: seq<byte>): (r: Fused)
      ensures r == Fused("fused_emotion", 0.6)
      ensures 0.0 <= r.confidence <= 1.0
      ensures r.dominant !in TextModel.LABELS && r.dominant !in AudioModel.LABELS
    {
      AudioModel.LabelsWellFormed();
      Fused("fused_emotion", 0.6)
    }

    /** The verdict does not depend on the inputs. */
    lemma PredictIgnoresInputs(t1: string, a1: seq<byte>, t2: string, a2: seq<byte>)
      ensures Predict(t1, a1) == Predict(t2, a2)
    {
    }
  }
}
