/** The process-wide model registry (backend/models/loader.py): three slots,
    each filled by its getter on first use and returned unchanged afterwards.
    The locks and the worker thread are left out, so each getter runs as one
    sequential step; the ghost counters count constructions per slot. */
module Loader {
  import TextModel
  import AudioModel
  import Multimodal

  class ModelLoader {
    var text: TextModel.TextEmotionModel?
    var audio: AudioModel.AudioEmotionModel?
    var fusion: Multimodal.MultimodalModel?
    ghost var textBuilds: nat
    ghost var audioBuilds: nat
    ghost var fusionBuilds: nat

    /** Every slot has been constructed at most once, and exactly once when it
        is filled. */
    ghost predicate Valid()
      reads this
    {
      && textBuilds <= 1 && (text == null <==> textBuilds == 0)
      && audioBuilds <= 1 && (audio == null <==> audioBuilds == 0)
      && fusionBuilds <= 1 && (fusion == null <==> fusionBuilds == 0)
    }

    /** `__init__`: all three slots empty. */
    constructor ()
      ensures Valid()
      ensures text == null && audio == null && fusion == null
      ensures textBuilds == 0 && audioBuilds == 0 && fusionBuilds == 0
    {
      text, audio, fusion := null, null, null;
      textBuilds, audioBuilds, fusionBuilds := 0, 0, 0;
    }

    /** `get_text_model()`: constructs `TextEmotionModel()` only when the slot
        is empty, and caches whatever it built, a degraded instance included;
        a filled slot is returned as is, with no new construction. */
    method GetTextModel(env: TextModel.LoadEnv) returns (m: TextModel.TextEmotionModel)
      requires Valid()
      modifies this`text, this`textBuilds
      ensures Valid()
      ensures text == m
      ensures old(text) != null ==> m == old(text) && textBuilds == old(textBuilds)
      ensures old(text) == null ==>
                && fresh(m) && textBuilds == 1
                && m.modelName == TextModel.DEFAULT_MODEL_NAME
                && m.available == TextModel.LoadSucceeds(env)
    {
      if text == null {
        text := new TextModel.TextEmotionModel(TextModel.DEFAULT_MODEL_NAME, env);
        textBuilds := textBuilds + 1;
      }
      m := text;
    }

    /** `get_audio_model()`, the same protocol on the audio slot. */
    method GetAudioModel(env: AudioModel.LoadEnv) returns (m: AudioModel.AudioEmotionModel)
      requires Valid()
      modifies this`audio, this`audioBuilds
      ensures Valid()
      ensures audio == m
      ensures old(audio) != null ==> m == old(audio) && audioBuilds == old(audioBuilds)
      ensures old(audio) == null ==>
                fresh(m) && audioBuilds == 1 && m.available == AudioModel.LoadSucceeds(env)
    {
      if audio == null {
        audio := new AudioModel.AudioEmotionModel(env);
        audioBuilds := audioBuilds + 1;
      }
      m := audio;
    }

    /** `get_fusion_model()`, the same protocol on the fusion slot. */
    method GetFusionModel() returns (m: Multimodal.MultimodalModel)
      requires Valid()
      modifies this`fusion, this`fusionBuilds
      ensures Valid()
      ensures fusion == m
      ensures old(fusion) != null ==> m == old(fusion) && fusionBuilds == old(fusionBuilds)
      ensures old(fusion) == null ==> fresh(m) && fusionBuilds == 1
    {
      if fusion == null {
        fusion := new Multimodal.MultimodalModel();
        fusionBuilds := fusionBuilds + 1;
      }
      m := fusion;
    }
  }

  /** N requests in a row for the text model on a fresh loader: one
      construction, and every request gets the same handle, even when later
      requests would have found a working environment. */
  method RepeatedTextRequests(loader: ModelLoader, envs: seq<TextModel.LoadEnv>) returns (handles: seq<TextModel.TextEmotionModel>)
    requires loader.Valid() && loader.text == null && |envs| > 0
    modifies loader
    ensures loader.Valid() && loader.textBuilds == 1
    ensures |handles| == |envs|
    ensures forall i :: 0 <= i < |handles| ==> handles[i] == loader.text
    ensures loader.text.available == TextModel.LoadSucceeds(envs[0])
  {
    var first := loader.GetTextModel(envs[0]);
    handles := [first];
    var i := 1;
    while i < |envs|
      invariant 1 <= i <= |envs|
      invariant loader.Valid() && loader.text == first && loader.textBuilds == 1
      invariant first.available == TextModel.LoadSucceeds(envs[0])
      invariant |handles| == i
      invariant forall k :: 0 <= k < i ==> handles[k] == first
    {
      var h := loader.GetTextModel(envs[i]);
      handles := handles + [h];
      i := i + 1;
    }
  }
}
