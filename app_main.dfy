/** The HTTP handlers of backend/app/main.py as sequential request steps over
    the process-wide loader and entry store. The uploaded file's bytes (or the
    error reading them raised), the generated uuid, the clock and any database
    error are inputs; the forward passes are the classifiers' parameters. */
module App {
  import opened Base
  import opened Emotions
  import EntryStore
  import TextModel
  import AudioModel
  import Multimodal
  import Loader

  /** A classifier response `{"probabilities", "dominant"}`, with "warning"
      present only on the audio fallback. */
  datatype Response = Response(probabilities: Distribution, dominant: string, warning: Option<string>)

  /** The multimodal response `{"text", "audio", "fused"}`. */
  datatype MultimodalResponse = MultimodalResponse(text: Response, audio: Response, fused: Multimodal.Fused)

  /** The entry dict a handler saves: `{"id", "type", "dominant"}`. */
  function Entry(id: string, kind: string, dominant: string): (e: EntryStore.EntryDict)
    ensures e.Keys == {"id", "type", "dominant"}
    ensures forall now: int :: EntryStore.RowOf(e, now) == EntryStore.Row(Some(id), Some(kind), Some(dominant), now)
  {
    map["id" := id, "type" := kind, "dominant" := dominant]
  }

  /** A model's `(probs, dominant)` sent back unchanged. */
  function Echo(p: Prediction): (r: Response)
    ensures r.probabilities == p.probabilities && r.dominant == p.dominant
    ensures r.warning.None?
  {
    Response(p.probabilities, p.dominant, None)
  }

  /** The answer `analyze_audio` gives for any exception `e`. */
  function AudioWarning(message: string): (r: Response)
    ensures r == Response([("neutral", 1.0)], "neutral", Some(message))
    ensures r.dominant in Keys(r.probabilities)
  {
    var r := Response([("neutral", 1.0)], "neutral", Some(message));
    assert Keys(r.probabilities)[0] == "neutral";
    r
  }

  /** `analyze_text`: gets (and on first use builds) the text model, predicts,
      logs one "text" entry with the predicted dominant label, and echoes the
      prediction. There is no handler: a failing forward pass or a failing
      save propagates, and the entry is written only on the success path. */
  method AnalyzeText(loader: Loader.ModelLoader, store: EntryStore.Storage, env: TextModel.LoadEnv,
                     engine: TextModel.Engine, text: string, id: string, now: int, fault: Option<string>)
    returns (r: Outcome<Response>)
    requires loader.Valid() && store.Valid()
    modifies loader, store
    ensures loader.Valid() && store.Valid()
    ensures loader.audio == old(loader.audio) && loader.fusion == old(loader.fusion)
    ensures loader.text != null
    ensures old(loader.text) != null ==> loader.text == old(loader.text)
    ensures old(loader.text) == null ==> loader.text.available == TextModel.LoadSucceeds(env)
    ensures var p := loader.text.Predict(text, engine);
            && (p.Raised? ==> r == Raised(p.message) && store.rows == old(store.rows))
            && (p.Ok? && fault.Some? ==> r == Raised(fault.value) && store.rows == old(store.rows))
            && (p.Ok? && fault.None? ==>
                  && r == Ok(Echo(p.value))
                  && store.rows == EntryStore.Upsert(old(store.rows), EntryStore.RowOf(Entry(id, "text", p.value.dominant), now)))
  {
    var model := loader.GetTextModel(env);
    var p := model.Predict(text, engine);
    if p.Raised? {
      return Raised(p.message);
    }
    var saved := store.SaveEntry(Entry(id, "text", p.value.dominant), now, fault);
    if saved.Raised? {
      return Raised(saved.message);
    }
    r := Ok(Echo(p.value));
  }

  /** `analyze_audio`: reads the upload, gets the audio model, predicts and
      logs one "audio" entry. Every exception, from the read or from the
      save, is turned into the neutral answer with a warning, so the handler
      always answers with a distribution that holds its dominant label. */
  method AnalyzeAudio(loader: Loader.ModelLoader, store: EntryStore.Storage, env: AudioModel.LoadEnv,
                      infer: seq<byte> -> Outcome<seq<real>>, upload: Outcome<seq<byte>>,
                      id: string, now: int, fault: Option<string>)
    returns (r: Response)
    requires loader.Valid() && store.Valid()
    modifies loader, store
    ensures loader.Valid() && store.Valid()
    ensures loader.text == old(loader.text) && loader.fusion == old(loader.fusion)
    ensures r.dominant in Keys(r.probabilities)
    ensures upload.Raised? ==>
              r == AudioWarning(upload.message) && store.rows == old(store.rows) && loader.audio == old(loader.audio)
    ensures upload.Ok? ==>
              && loader.audio != null
              && (old(loader.audio) != null ==> loader.audio == old(loader.audio))
              && (old(loader.audio) == null ==> loader.audio.available == AudioModel.LoadSucceeds(env))
              && var p := loader.audio.PredictFromBytes(upload.value, infer);
                 && (fault.Some? ==> r == AudioWarning(fault.value) && store.rows == old(store.rows))
                 && (fault.None? ==>
                       && r == Echo(p)
                       && store.rows == EntryStore.Upsert(old(store.rows), EntryStore.RowOf(Entry(id, "audio", p.dominant), now)))
  {
    if upload.Raised? {
      return AudioWarning(upload.message);
    }
    var model := loader.GetAudioModel(env);
    r := RunAudioModel(store, model, infer, upload.value, id, now, fault);
  }

  /** Lines 75-81 of `analyze_audio`: the prediction, the log entry and the
      answer, with a failing save turned into the warning response. */
  method RunAudioModel(store: EntryStore.Storage, model: AudioModel.AudioEmotionModel,
                       infer: seq<byte> -> Outcome<seq<real>>, audioBytes: seq<byte>,
                       id: string, now: int, fault: Option<string>)
    returns (r: Response)
    requires store.Valid()
    modifies store
    ensures store.Valid()
    ensures r.dominant in Keys(r.probabilities)
    ensures var p := model.PredictFromBytes(audioBytes, infer);
            && (fault.Some? ==> r == AudioWarning(fault.value) && store.rows == old(store.rows))
            && (fault.None? ==>
                  && r == Echo(p)
                  && store.rows == EntryStore.Upsert(old(store.rows), EntryStore.RowOf(Entry(id, "audio", p.dominant), now)))
  {
    var p := model.PredictFromBytes(audioBytes, infer);
    var saved := store.SaveEntry(Entry(id, "audio", p.dominant), now, fault);
    if saved.Raised? {
      return AudioWarning(saved.message);
    }
    PredictionNamesKey(model, audioBytes, infer);
    r := Echo(p);
  }

  /** Every audio prediction names one of its own keys. */
  lemma PredictionNamesKey(model: AudioModel.AudioEmotionModel, audioBytes: seq<byte>, infer: seq<byte> -> Outcome<seq<real>>)
    ensures var p := model.PredictFromBytes(audioBytes, infer);
            p.dominant in Keys(p.probabilities)
  {
    var p := model.PredictFromBytes(audioBytes, infer);
    if p == model.DemoResult() {
      assert Keys(AudioModel.DEMO_SCORES)[0] == "neutral";
    } else {
      var k :| 0 <= k < |p.probabilities| && IsFirstMaxAt(p.probabilities, k) && p.probabilities[k].0 == p.dominant;
      assert Keys(p.probabilities)[k] == p.dominant;
    }
  }

  /** Lines 92-94 of `multimodal_analysis`: the three getters in turn. */
  method LoadModels(loader: Loader.ModelLoader, textEnv: TextModel.LoadEnv, audioEnv: AudioModel.LoadEnv)
    returns (t: TextModel.TextEmotionModel, a: AudioModel.AudioEmotionModel, f: Multimodal.MultimodalModel)
    requires loader.Valid()
    modifies loader
    ensures loader.Valid()
    ensures loader.text == t && loader.audio == a && loader.fusion == f
    ensures old(loader.text) != null ==> t == old(loader.text)
    ensures old(loader.audio) != null ==> a == old(loader.audio)
    ensures old(loader.fusion) != null ==> f == old(loader.fusion)
    ensures old(loader.text) == null ==> fresh(t) && t.available == TextModel.LoadSucceeds(textEnv)
    ensures old(loader.audio) == null ==> fresh(a) && a.available == AudioModel.LoadSucceeds(audioEnv)
    ensures old(loader.fusion) == null ==> fresh(f)
  {
    t := loader.GetTextModel(textEnv);
    a := loader.GetAudioModel(audioEnv);
    f := loader.GetFusionModel();
  }

  /** `multimodal_analysis`: reads the upload, gets all three models, runs the
      text, audio and fusion predictors in that order, logs one "multimodal"
      entry carrying the fused label and answers with the three results.
      There is no handler: a failing read, text model or save propagates. */
  method MultimodalAnalysis(loader: Loader.ModelLoader, store: EntryStore.Storage,
                            textEnv: TextModel.LoadEnv, audioEnv: AudioModel.LoadEnv,
                            engine: TextModel.Engine, infer: seq<byte> -> Outcome<seq<real>>,
                            text: string, upload: Outcome<seq<byte>>, id: string, now: int, fault: Option<string>)
    returns (r: Outcome<MultimodalResponse>)
    requires loader.Valid() && store.Valid()
    modifies loader, store
    ensures loader.Valid() && store.Valid()
    ensures upload.Raised? ==>
              && r == Raised(upload.message) && store.rows == old(store.rows)
              && loader.text == old(loader.text) && loader.audio == old(loader.audio) && loader.fusion == old(loader.fusion)
    ensures upload.Ok? ==>
              && loader.text != null && loader.audio != null && loader.fusion != null
              && (old(loader.text) != null ==> loader.text == old(loader.text))
              && (old(loader.audio) != null ==> loader.audio == old(loader.audio))
              && (old(loader.fusion) != null ==> loader.fusion == old(loader.fusion))
              && var tp := loader.text.Predict(text, engine);
                 var ap := loader.audio.PredictFromBytes(upload.value, infer);
                 var fused := loader.fusion.Predict(text, upload.value);
                 && (tp.Raised? ==> r == Raised(tp.message) && store.rows == old(store.rows))
                 && (tp.Ok? && fault.Some? ==> r == Raised(fault.value) && store.rows == old(store.rows))
                 && (tp.Ok? && fault.None? ==>
                       && r == Ok(MultimodalResponse(Echo(tp.value), Echo(ap), fused))
                       && store.rows == EntryStore.Upsert(old(store.rows), EntryStore.RowOf(Entry(id, "multimodal", fused.dominant), now)))
  {
    if upload.Raised? {
      return Raised(upload.message);
    }
    var textModel, audioModel, fusionModel := LoadModels(loader, textEnv, audioEnv);
    r := RunModels(store, textModel, audioModel, fusionModel, engine, infer, text, upload.value, id, now, fault);
  }

  /** Lines 95-102 of `multimodal_analysis`: the three predictions, the log
      entry and the answer; a failing text prediction or save propagates. */
  method RunModels(store: EntryStore.Storage, t: TextModel.TextEmotionModel, a: AudioModel.AudioEmotionModel,
                   f: Multimodal.MultimodalModel, engine: TextModel.Engine, infer: seq<byte> -> Outcome<seq<real>>,
                   text: string, audioBytes: seq<byte>, id: string, now: int, fault: Option<string>)
    returns (r: Outcome<MultimodalResponse>)
    requires store.Valid()
    modifies store
    ensures store.Valid()
    ensures var tp := t.Predict(text, engine);
            var ap := a.PredictFromBytes(audioBytes, infer);
            var fused := f.Predict(text, audioBytes);
            && (tp.Raised? ==> r == Raised(tp.message) && store.rows == old(store.rows))
            && (tp.Ok? && fault.Some? ==> r == Raised(fault.value) && store.rows == old(store.rows))
            && (tp.Ok? && fault.None? ==>
                  && r == Ok(MultimodalResponse(Echo(tp.value), Echo(ap), fused))
                  && store.rows == EntryStore.Upsert(old(store.rows), EntryStore.RowOf(Entry(id, "multimodal", fused.dominant), now)))
  {
    var tp := t.Predict(text, engine);
    if tp.Raised? {
      return Raised(tp.message);
    }
    var ap := a.PredictFromBytes(audioBytes, infer);
    var fused := f.Predict(text, audioBytes);
    var saved := store.SaveEntry(Entry(id, "multimodal", fused.dominant), now, fault);
    if saved.Raised? {
      return Raised(saved.message);
    }
    r := Ok(MultimodalResponse(Echo(tp.value), Echo(ap), fused));
  }

  /** `mood_history(limit)`: the store's answer, unchanged. */
  method MoodHistory(store: EntryStore.Storage, limit: int) returns (items: seq<EntryStore.HistoryItem>)
    ensures items == EntryStore.Query(store.rows, limit)
  {
    items := store.GetEntries(limit);
  }

  /** A handler's entry, saved at an instant later than every stored row, is
      what `mood_history(1)` answers next: the handler's id, its type and the
      dominant label it logged, stamped with the save's time. */
  lemma LoggedEntryIsLatest(rows: seq<EntryStore.Row>, id: string, kind: string, dominant: string, now: int)
    requires forall k :: 0 <= k < |rows| ==> rows[k].timestamp < now
    ensures EntryStore.Query(EntryStore.Upsert(rows, EntryStore.RowOf(Entry(id, kind, dominant), now)), 1) ==
            [EntryStore.HistoryItem(Some(id), Some(kind), Some(dominant), now)]
  {
    EntryStore.SaveThenLatest(rows, Entry(id, kind, dominant), now);
  }

  /** A fresh uuid only appends: no earlier entry is replaced. */
  lemma FreshIdAppends(rows: seq<EntryStore.Row>, id: string, kind: string, dominant: string, now: int)
    requires !EntryStore.HasId(rows, id)
    ensures EntryStore.Upsert(rows, EntryStore.RowOf(Entry(id, kind, dominant), now)) ==
            rows + [EntryStore.Row(Some(id), Some(kind), Some(dominant), now)]
  {
    EntryStore.UpsertFresh(rows, Entry(id, kind, dominant), now);
  }
}
