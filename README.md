# AI Mental Health Companion: a verified model of its core

This project models the core of the AI Mental Health Companion app in Dafny and proves properties of the model. The app has two halves.

The backend is a FastAPI service:
- a text emotion classifier with 28 GoEmotions labels;
- an audio emotion classifier with a demo fallback;
- a constant fusion placeholder;
- a lazy model loader;
- a SQLite mood log;
- four request handlers.

The mobile half is a React Native app:
- `AnalysisService.js` derives an upload's file name, extension and MIME type, and builds the message for a failed request;
- `RecordScreen.js` runs the record, review and analyse state machine, formats the elapsed time and picks colours by emotion;
- `HomeScreen.js` skips blank input before analysing text;
- both screens show the top five emotions of a result.

The model has one module per source file, plus five shared modules:
- `Base`: Option and Outcome.
- `Strings`: decimal text, `padStart`, lowercasing and `split(sep).pop()`.
- `Ranking`: a stable descending sort and top-k.
- `Emotions`: an ordered label-to-score dict and Python's first-maximum `max`.
- `Screens`: the parsed server reply and the top-five table that both screens render.

Python dicts are modelled as ordered sequences of `(label, score)` pairs. Insertion order decides which label `max` returns on a tie, and the order in which `Object.entries` lists the scores on the phone.

Exceptions are modelled as `Outcome.Raised(message)`, not as preconditions.

Several things are passed in as function parameters, because they are not modelled:
- the network forward passes;
- `sigmoid` and `softmax`;
- the JSON parser;
- the `toFixed(1)` formatter.

Four more inputs are plain parameters:
- the environment that decides whether a model loads;
- the clock, as `now`;
- the uuid supply, as `id`;
- storage faults.

Objects are classes:
- The two classifiers have their fields set once, by their constructors. Their operations are functions that read those fields.
- The fusion model has no fields. It is a class so that the loader's slots have object identity.
- The loader with its three slots, the store with its rows, the training example dict and the two screens with their hook state have methods with `modifies` frames.

Ghost fields record history:
- Per-slot build counters in the loader. The loader's `Valid()` ties them to the slots, and every method keeps it.
- A log of every phase `RecordScreen` was in. Its `Valid()` says the log ends in the current phase and that the done phase is only entered straight from analysing.
- A log of the values of the `loading` flag in `HomeScreen`. `Analyze` states how it grows; the class has no invariant.

The store's `Valid()` is the primary-key constraint on its rows.

The SQLite table is a sequence of rows in rowid order.
- `INSERT OR REPLACE` deletes any row with the same id and appends the new row.
- `id` is a TEXT PRIMARY KEY, which SQLite lets be NULL. Rows with a NULL id are therefore appended and never replaced.
- The query is a stable sort, newest first, followed by the limit.
- A negative `LIMIT` means no limit, as in SQLite.

## Model

| member | source | states |
|---|---|---|
| Strings.NatToString | mobile/screens/RecordScreen.js:97-98 | `Number.toString` of a natural: all digits, no leading zero unless the number is 0, one digit exactly when n < 10 |
| Strings.NatToStringRoundTrip | mobile/screens/RecordScreen.js:97-98 | reading the decimal text back gives the number |
| Strings.PadStart | mobile/screens/RecordScreen.js:97-98 | `padStart(width, fill)`: length max(\|s\|, width), ends with s, only fill characters before it |
| Strings.PaddedValue | mobile/screens/RecordScreen.js:97-98 | a zero-padded decimal is all digits and still reads back as the number |
| Strings.Lower | mobile/services/AnalysisService.js:24 | `toLowerCase`: same length, no upper-case ASCII letter left, each upper-case letter replaced by its lower-case partner and every other character kept |
| Strings.LastSegment | mobile/services/AnalysisService.js:22 | `split(sep).pop()`: a suffix of s with no sep in it, preceded by sep whenever it is shorter than s, and all of s when sep does not occur |
| Strings.LastSegmentAfter | mobile/services/AnalysisService.js:22 | whatever precedes the last sep, the segment after it is returned |
| Strings.LowerLastSegment | mobile/services/AnalysisService.js:24 | lowercasing commutes with taking the last segment when sep is not a letter |
| Ranking.SortDesc | mobile/screens/HomeScreen.js:26-27 | the `sort((a,b) => b[1]-a[1])` result is non-increasing and a permutation of the input |
| Ranking.SortDescStable | mobile/screens/HomeScreen.js:27 | the sort is stable: the elements with any one key value keep their original relative order |
| Ranking.TopK | backend/utils/storage.py:39 | sort then take k: length min(k, \|s\|), non-increasing, a sub-multiset of s, and no dropped element is greater than a kept one |
| Ranking.TopKBounds | backend/utils/storage.py:39 | every element left out of the first k of a sorted sequence is at most each element kept |
| Ranking.TopKStartsWithStrictMax | backend/utils/storage.py:39 | an element whose key is larger than every other element's is the first one selected |
| Ranking.TopKKeepsFirstTies | mobile/screens/HomeScreen.js:27-28 | among entries with equal scores, the ones kept are the earliest in input order |
| Ranking.TopOfTwoTied | mobile/screens/HomeScreen.js:27-28 | of two elements with equal keys, a top-1 selection keeps the first |
| Emotions.LabelScores | backend/models/text_model.py:57 | the comprehension over `range(min(len(LABELS), len(probs)))`: keys are the first min(\|labels\|, \|scores\|) labels in order, and the value for labels[i] is scores[i] |
| Emotions.FirstMaxIndex | backend/models/text_model.py:58 | `max(items, key=score)` on a non-empty dict picks the first position whose score no other score exceeds |
| Emotions.Dominant | backend/models/text_model.py:58 | the dominant label is a key, has a maximal score, and no earlier key has an equal score |
| Emotions.FirstMaxUnique | backend/models/text_model.py:58 | there is exactly one first maximum, so the dominant label is determined |
| TextModel.LabelsWellFormed | backend/models/text_model.py:4-11 | 28 pairwise distinct labels, with "neutral" the last |
| TextModel.TextEmotionModel.constructor | backend/models/text_model.py:16-37 | available exactly when the imports, the tokenizer, and one of the two model loads (sized, or the retry without `num_labels`) succeed; with the tokenizer and model fields set accordingly |
| TextModel.TextEmotionModel.Predict | backend/models/text_model.py:39-59 | unavailable gives neutral 1.0 for every text; a failing forward pass raises; a 0-d (width-1) probability array raises the `len()` TypeError; otherwise sigmoid is kept when its width is 28 and replaced by softmax when not, scores are mapped onto the first labels, an empty vector raises the `max()` ValueError, and the dominant is the first maximum; with a width-preserving softmax the call succeeds exactly for two or more logits |
| TextModel.ScoreVector | backend/models/text_model.py:49-56 | a 28-wide output gives the elementwise sigmoid of the logits; any other width gives the softmax of the logits |
| AudioModel.LabelsWellFormed | backend/models/audio_model.py:5 | the labels are "emotion_0" to "emotion_7": 8 distinct strings |
| AudioModel.DemoLabelsDisjoint | backend/models/audio_model.py:79-83 | no real-inference label is a demo label |
| AudioModel.AudioEmotionModel.constructor | backend/models/audio_model.py:50-58 | available exactly when torch imports and the network builds; the model field is set only then |
| AudioModel.AudioEmotionModel.DemoResult | backend/models/audio_model.py:77-85 | the eight demo scores in their literal order, dominant "neutral", distinct keys |
| AudioModel.AudioEmotionModel.PredictFromBytes | backend/models/audio_model.py:60-75 | total: the demo result when unavailable, when inference fails or when it yields no scores; otherwise labels mapped onto the scores with the first maximum as dominant |
| Multimodal.MultimodalModel.Predict | backend/models/multimodal.py:10-14 | "fused_emotion" with confidence 0.6, which lies in [0, 1], and a label that neither classifier uses |
| Multimodal.MultimodalModel.PredictIgnoresInputs | backend/models/multimodal.py:10-14 | the verdict is the same for any two inputs |
| Loader.ModelLoader.constructor | backend/models/loader.py:6-12 | all three slots are empty and no model has been built |
| Loader.ModelLoader.GetTextModel | backend/models/loader.py:14-21 | an empty slot builds exactly one text model, stores and returns it; a filled slot returns the cached object, a degraded one included, and builds nothing; the other slots are untouched |
| Loader.ModelLoader.GetAudioModel | backend/models/loader.py:23-29 | the same lazy, build-at-most-once caching for the audio slot |
| Loader.ModelLoader.GetFusionModel | backend/models/loader.py:31-37 | the same lazy, build-at-most-once caching for the fusion slot |
| Loader.RepeatedTextRequests | backend/models/loader.py:14-21 | any number of requests build one text model, all get the same object, and its availability is decided by the first environment only |
| EntryStore.UpsertFacts | backend/utils/storage.py:31-32 | after a save, ids stay unique and the new row is last with timestamp now; with an id, exactly one row has it and all other rows are unchanged in order; with no id the row is appended |
| EntryStore.UpsertFresh | backend/utils/storage.py:31 | saving an id no row has appends the row and changes nothing else |
| EntryStore.QueryFacts | backend/utils/storage.py:39-42 | at most limit items (all rows for a negative limit), timestamps non-increasing, each item the dict view of a stored row, the items are the views of a sub-multiset of the rows (no row twice), and no row left out is newer than a row returned |
| EntryStore.RowOf | backend/utils/storage.py:31-32 | the column values of `entry.get(...)`: a present key gives its value, a missing key NULL; the timestamp is the insertion time |
| EntryStore.Upsert | backend/utils/storage.py:31 | the new row is last; every other result row was already stored; every stored row with a different (or NULL new) id is kept; no other row keeps the new non-NULL id |
| EntryStore.WithoutId | backend/utils/storage.py:31-32 | the rows that `INSERT OR REPLACE` keeps: none has the saved id, every stored row with another id is kept, and nothing new appears; with no row holding the id, the table is unchanged |
| EntryStore.View | backend/utils/storage.py:42 | the dict of one fetched row: its id, its entry_type under "type", its dominant and its timestamp |
| EntryStore.Views | backend/utils/storage.py:42 | one dict per fetched row, of the same length and in the same order |
| EntryStore.Query | backend/utils/storage.py:39-42 | `LIMIT limit` gives min(limit, rows) items, and every row for a negative limit |
| EntryStore.NewestFirst | backend/utils/storage.py:39 | when the last row is the newest, it is the first item returned |
| EntryStore.SaveThenLatest | backend/utils/storage.py:28-42 | when every stored row is strictly older than the save, `get_entries(1)` returns the saved entry with its id, type and dominant, and timestamp now |
| EntryStore.SameSecondTie | backend/utils/storage.py:21-39 | a second save in the same second ties with the first on the timestamp; the program may return either tied row, since the query orders only on timestamp, and in the model's rowid order `get_entries(1)` returns the older row |
| EntryStore.Storage.constructor | backend/utils/storage.py:7-26 | the table holds the given existing rows |
| EntryStore.Storage.SaveEntry | backend/utils/storage.py:28-34 | a storage fault raises and leaves the table unchanged; otherwise the table becomes the upsert of the entry with timestamp now |
| EntryStore.Storage.GetEntries | backend/utils/storage.py:36-42 | the loop builds exactly the query result, in order and limited, and does not change the table |
| App.Entry | backend/app/main.py:66 | the entry dict has exactly the keys id, type and dominant, and is stored as that row |
| App.Echo | backend/app/main.py:68 | a handler returns the model's probabilities and dominant unchanged, with no warning; the same shape is used at main.py lines 79 and 100-101 |
| App.AudioWarning | backend/app/main.py:80-82 | the fallback response: neutral 1.0, dominant neutral, the exception text as warning |
| App.AnalyzeText | backend/app/main.py:61-68 | a raising prediction or store propagates; otherwise it returns the prediction unchanged and logs exactly one "text" entry with its dominant under the given id |
| App.AnalyzeAudio | backend/app/main.py:71-82 | never raises and always names a dominant that is a key; a failed upload read or a store fault gives the warning response; otherwise it echoes the prediction and logs one "audio" entry |
| App.RunAudioModel | backend/app/main.py:75-81 | the answer always names one of its own keys; a store fault gives the warning response and leaves the store unchanged; otherwise it echoes the prediction and upserts one "audio" entry with its dominant |
| App.PredictionNamesKey | backend/models/audio_model.py:69-71 | every audio prediction's dominant is one of its keys |
| App.MultimodalAnalysis | backend/app/main.py:89-102 | failures propagate; otherwise the response holds the text, audio and fused results, and one "multimodal" entry is logged with the fused dominant |
| App.LoadModels | backend/app/main.py:92-94 | each of the three loader slots keeps a model it already holds; an empty text or audio slot gets a freshly built model whose availability is the load outcome; the results are the slots |
| App.RunModels | backend/app/main.py:95-102 | a raising text prediction propagates and a store fault raises (the audio and fused predictions never raise); otherwise the three results are returned and one "multimodal" entry with the fused dominant is upserted |
| App.MoodHistory | backend/app/main.py:105-107 | returns the store's query unchanged |
| App.LoggedEntryIsLatest | backend/app/main.py:66-67 | when every stored row is strictly older than the request, the newly logged entry is what `mood_history(1)` returns next |
| App.FreshIdAppends | backend/app/main.py:66 | with a fresh uuid, the log grows by one row at the end |
| TrainTextFull.Mark | ml/train_text_full.py:35-36 | one loop step keeps the length, sets slot l to 1 when l is not None and in range, and leaves every other slot as it was |
| TrainTextFull.LabelsOrEmpty | ml/train_text_full.py:34 | `example.get('labels', [])`: the labels when the key is present, and the empty list when it is absent |
| TrainTextFull.Scatter | ml/train_text_full.py:33-36 | the vector has one slot per label |
| TrainTextFull.ScatterAt | ml/train_text_full.py:34-36 | slot i is 1 exactly when i occurs among the labels, and 0 otherwise; None and out-of-range entries are ignored |
| TrainTextFull.SameMarks | ml/train_text_full.py:34-36 | two label lists with the same in-range indices give the same vector |
| TrainTextFull.DuplicateIgnored | ml/train_text_full.py:36 | repeating an index does not change the vector |
| TrainTextFull.BuildMultiLabel | ml/train_text_full.py:33-36 | the array loop computes the vector: length len(label_list), every slot 0 or 1, and 1 exactly for the listed in-range indices |
| TrainTextFull.PreprocessLabels | ml/train_text_full.py:32-38 | the same example object is returned, only `multi_label` changes, and a missing `labels` key gives all zeros |
| AnalysisService.Filename | mobile/services/AnalysisService.js:22 | the file name has no '/', is a suffix of the uri preceded by '/' when shorter, and is the whole uri when there is no '/' |
| AnalysisService.Extension | mobile/services/AnalysisService.js:24 | the lowercased text after the last '.' (the whole name when there is none): no '.' and no upper-case letter in it |
| AnalysisService.MimeType | mobile/services/AnalysisService.js:25-26 | the five listed extensions map to their types, anything else to "audio/m4a" |
| AnalysisService.UploadPart | mobile/services/AnalysisService.js:22-27 | the form part carries the uri, the derived name and the derived MIME type |
| AnalysisService.PartOfRecording | mobile/services/AnalysisService.js:22-26 | a recording dir/stem.ext uploads as "stem.ext" with the type of the lowercased extension |
| AnalysisService.MimeCaseInsensitive | mobile/services/AnalysisService.js:24-26 | names that differ only in letter case get the same MIME type |
| AnalysisService.ServerErrorMessage | mobile/services/AnalysisService.js:37 | "Server error " + status + ": " followed by exactly the first min(120, \|body\|) characters of the body |
| AnalysisService.ServerErrorStatusReadBack | mobile/services/AnalysisService.js:37 | the status can be read back from the message digits |
| AnalysisService.AudioReply | mobile/services/AnalysisService.js:35-39 | a non-ok reply raises the server error message; an ok reply yields its body |
| RecordScreen.Minutes | mobile/screens/RecordScreen.js:97 | `Math.floor(s / 60)`: the unique m with m*60 <= s < m*60 + 60 |
| RecordScreen.MinutesIsFloor | mobile/screens/RecordScreen.js:97-98 | the minutes are s / 60 and the seconds left over are s % 60 |
| RecordScreen.FormatTime | mobile/screens/RecordScreen.js:96-100 | the colon sits three from the end, both fields are digits, seconds < 60, MM*60 + SS == s; the text has 5 characters below 100 minutes, and from 100 minutes on MM has no leading zero |
| RecordScreen.GetEmotionColor | mobile/screens/RecordScreen.js:15-17 | the table colour of the lowercased emotion, "#007bff" for a missing or unknown one |
| RecordScreen.KnownColors | mobile/screens/RecordScreen.js:9-17 | each listed emotion, in any letter case, gets its table colour |
| RecordScreen.ColorIgnoresCase | mobile/screens/RecordScreen.js:16 | names that differ only in letter case get the same colour |
| RecordScreen.DominantColor | mobile/screens/RecordScreen.js:184 | no result gives "#007bff", otherwise the colour of its dominant |
| RecordScreen.AnalysisOutcome | mobile/screens/RecordScreen.js:157-159 | a missing uri raises the null-uri TypeError; a failed request raises its message; a non-ok reply raises the server error message; a failed parse raises the parser's error; a non-empty `error` raises exactly that text; otherwise the parsed result |
| RecordScreen.FailureText | mobile/screens/RecordScreen.js:163 | an empty message is replaced by "Could not reach the server." |
| RecordScreen.RecordScreen.constructor | mobile/screens/RecordScreen.js:79-86 | the initial hook values: idle, nothing recorded, no result, elapsed 0, no timer |
| RecordScreen.RecordScreen.StartRecording | mobile/screens/RecordScreen.js:102-120 | a granted permission and a created recording enter the recording phase with elapsed 0 and a running timer; a refusal or error only raises the matching alert |
| RecordScreen.RecordScreen.Tick | mobile/screens/RecordScreen.js:116 | each timer firing adds one second |
| RecordScreen.RecordScreen.StopRecording | mobile/screens/RecordScreen.js:122-134 | the timer stops; success moves to reviewing with the uri kept, and failure (including no recording object) moves to idle with an alert |
| RecordScreen.RecordScreen.AnalyzeRecording | mobile/screens/RecordScreen.js:155-166 | passes through analysing, then ends done with the result stored, or reviewing with the result unchanged and an alert; the done phase is only ever entered straight from analysing |
| RecordScreen.RecordScreen.ResetAll | mobile/screens/RecordScreen.js:168-174 | back to idle with every hook cleared and the timer stopped |
| RecordScreen.RecordScreen.TopEmotionsShown | mobile/screens/RecordScreen.js:176-181 | no rows without a result or without probabilities; otherwise one row per entry of the top five (descending, stable, no dropped entry more probable than a kept one), with its emotion and formatted percentage |
| Screens.Top5 | mobile/screens/HomeScreen.js:26-28 | at most five entries, non-increasing, drawn from the probabilities, with no dropped entry scoring higher than a kept one |
| Screens.Rows | mobile/screens/HomeScreen.js:29 | one row per entry, with its emotion and formatted percentage |
| Screens.TopEmotions | mobile/screens/HomeScreen.js:23-30 | no rows without a result or probabilities; otherwise the rows of the top five |
| Screens.KeptFromTable | mobile/screens/HomeScreen.js:26-28 | every row shown names an emotion of the result |
| HomeScreen.TrimEmptyIffBlank | mobile/screens/HomeScreen.js:11 | `text.trim()` is empty exactly when every character of the text is whitespace or a line terminator |
| HomeScreen.Trim | mobile/screens/HomeScreen.js:11 | a contiguous part of the text, with only removable characters cut from either side, that neither starts nor ends with one |
| HomeScreen.HomeScreen.constructor | mobile/screens/HomeScreen.js:6-8 | empty text, no result, not loading |
| HomeScreen.HomeScreen.SetText | mobile/screens/HomeScreen.js:42 | the text changes and nothing else does |
| HomeScreen.HomeScreen.Analyze | mobile/screens/HomeScreen.js:10-20 | blank text calls nothing and changes nothing; otherwise loading is set, then cleared on both paths, and the result is the response or the connect error |
| HomeScreen.HomeScreen.Request | mobile/screens/HomeScreen.js:12-19 | loading is set and then cleared (on both paths), and the result is the reply or the connect error |
| HomeScreen.HomeScreen.TopEmotionsShown | mobile/screens/HomeScreen.js:23-30 | no rows without a result or without probabilities; otherwise one row per entry of the top five (descending, stable, no dropped entry more probable than a kept one), with its emotion and formatted percentage |

## Left out

- TrainTextFull.LabelsOrEmpty: an example whose 'labels' key is present with the value None is not represented. `example.get('labels', [])` returns None there and the loop raises TypeError, while the model's `None` stands only for an absent key and gives all zeros.
- Feature extraction and numerics are left out: librosa decoding, MFCC, z-scoring, the tensor forward passes, and the bodies of `sigmoid` and `softmax`. These use floating point and foreign libraries. They are function parameters, and scores are `real`s that are only compared.
- The percentage formatting `(prob * 100).toFixed(1)` is a formatter parameter, because it is floating point.
- Model loading is given as booleans in an environment. This covers `from_pretrained`, `import torch` and building `SimpleAudioModel`; their exceptions become `false`.
- Loader concurrency is left out: the `asyncio.Lock` double check and `asyncio.to_thread`. The slots are modelled sequentially, and "built at most once" is a ghost counter.
- SQLite mechanics are left out: connections, file paths, `os.makedirs`, schema creation. The table is an in-memory sequence, and the database file is not modelled.
- The `DATETIME DEFAULT CURRENT_TIMESTAMP` text is modelled as whole seconds (`now`). Its `YYYY-MM-DD HH:MM:SS` text sorts in the same order.
- EntryStore.Query: SQLite leaves the order of rows with equal timestamps unspecified. The model fixes it to rowid order, the order a stable sort gives. Only the non-increasing order is promised by the source.
- App.MoodHistory: `limit=None` is not modelled, because SQLite rejects `LIMIT NULL`; `limit` is an integer.
- App.MoodHistory: the default `limit=100` of `mood_history` and `get_entries` is not modelled. Every call passes an explicit `limit`, and a caller omitting it is `limit == 100`.
- Loader.ModelLoader.GetAudioModel, Loader.ModelLoader.GetFusionModel: the module-level `import numpy` of audio_model.py and multimodal.py can make these getters raise, which the model does not capture. The getters are total. Only the failures inside the constructors' own `try` blocks are modelled, through their load environments.
- EntryStore.SaveThenLatest: a save is returned first by `get_entries(1)` only when it is strictly newer than every stored row. The clock has one-second resolution, so two saves in the same second tie. `ORDER BY timestamp` does not fix the order of tied rows, so the program may return either; the model fixes rowid order, in which the older row is returned (EntryStore.SameSecondTie).
- The HTTP and framework layer is left out:
  - FastAPI routing, `read_root`, CORS and uvicorn;
  - `UploadFile.read`, modelled only as a read that may fail;
  - the `fetch`/`FormData` calls, and the `analyzeText`/`getHistory` request bodies;
  - JSON parsing, which is the `parse` parameter.
- `uuid4` is the `id` parameter. The lemma App.FreshIdAppends covers a fresh id.
- The stub classes in backend/app/main.py:15-34 are dead code: the loader imports the real modules.
- `compute_metrics`, `train` and the other training, evaluation and dataset scripts are not part of this model.
- The UI is left out: rendering, animations, styles, expo-av permission and recording calls, `HistoryScreen.js`, and the unmount cleanup effect.
- `playRecording` and `stopPlayback` in `RecordScreen.js` are playback I/O that does not touch the phase. The model only carries their `sound` and `isPlaying` fields.
- Inherited prototype keys are left out. These are keys such as `"constructor"` that `mimeMap[ext]` or `EMOTION_COLORS[...]` would find on the JS object prototype. Each table is a finite map of its listed keys.
- Locale and UTF-16 details: `toLowerCase` is modelled on ASCII letters only (see Strings.Lower below). `res.status` is a natural number.
- Strings.Lower: lowercases ASCII letters only. For the two table lookups it is used in this gives the same answers. The only non-ASCII characters that JavaScript lowercases into ASCII are U+212A (to 'k') and U+0130 (to "i" + U+0307). No MIME or colour key contains a 'k', and no key contains U+0307.
- AnalysisService.ServerErrorMessage: `slice(0, 120)` counts UTF-16 code units, while the model counts characters. The two differ only for bodies with characters outside the Basic Multilingual Plane.
- RecordScreen.RecordScreen.StopRecording: the TypeError text for a missing recording object depends on the JavaScript engine. The model uses one fixed wording, as does RecordScreen.AnalysisOutcome for a missing uri.
- Object.entries order: integer-like keys would be listed first in ascending order. Both label sets have no such key, so the model lists keys in insertion order.
