/** The voice screen (mobile/screens/RecordScreen.js): the time display, the
    colour of the dominant emotion and the recording / review / analysis
    phases. Each `use…` state hook is a field; the expo-av calls and the
    server round trip are inputs that either deliver their value or throw. */
module RecordScreen {
  import opened Base
  import opened Strings
  import opened Screens
  import AnalysisService

  /** `Math.floor(s / 60)`, by repeated subtraction: the unique `m` with
      `m * 60 <= s < m * 60 + 60`. */
  function Minutes(s: nat): (m: nat)
    ensures m * 60 <= s < m * 60 + 60
  {
    if s < 60 then 0 else Minutes(s - 60) + 1
  }

  /** The minute count is JavaScript's `Math.floor(s / 60)` and the rest is
      `s % 60` (for a non-negative `s` both agree with Dafny's division). */
  lemma {:induction false} MinutesIsFloor(s: nat)
    ensures Minutes(s) == s / 60 && s - Minutes(s) * 60 == s % 60
  {
    if s >= 60 {
      MinutesIsFloor(s - 60);
    }
  }

  /** The two fields of `m + ":" + sec` are where they were put. */
  lemma Fields(m: string, sec: string)
    requires |sec| == 2
    ensures var t := m + ":" + sec;
            |t| == |m| + 3 && t[|t| - 3] == ':' && t[..|t| - 3] == m && t[|t| - 2..] == sec
  {
  }

  /** `formatTime(s)`: minutes and seconds, each zero-padded to two digits
      (so from 100 minutes on the minutes are written with no leading zero);
      the fields read back give `s`. */
  function FormatTime(s: nat): (t: string)
    ensures |t| >= 5 && t[|t| - 3] == ':'
    ensures AllDigits(t[..|t| - 3]) && AllDigits(t[|t| - 2..])
    ensures DigitsValue(t[|t| - 2..]) < 60
    ensures DigitsValue(t[..|t| - 3]) * 60 + DigitsValue(t[|t| - 2..]) == s
    ensures s < 6000 ==> |t| == 5
    ensures |t| > 5 ==> t[0] != '0'
  {
    var mm := Minutes(s);
    var m := PadStart(NatToString(mm), 2, '0');
    var sec := PadStart(NatToString(s - mm * 60), 2, '0');
    PaddedValue(mm, 2);
    PaddedValue(s - mm * 60, 2);
    Fields(m, sec);
    m + ":" + sec
  }

  const DEFAULT_COLOR := "#007bff"

  const EMOTION_COLORS: map<string, string> := map[
    "joy" := "#f6c90e", "happiness" := "#f6c90e", "gratitude" := "#2ecc71", "love" := "#e84393",
    "admiration" := "#9b59b6", "neutral" := "#95a5a6", "sadness" := "#3498db", "fear" := "#e67e22",
    "anger" := "#e74c3c", "disgust" := "#8e44ad", "surprise" := "#1abc9c", "default" := DEFAULT_COLOR]

  /** `getEmotionColor(emotion)`: the table entry of the lower-cased name;
      a missing name (`emotion?.` gives `undefined`) or one the table lacks
      gets the default colour. No entry is empty, so `||` only falls back for
      a name the table lacks. */
  function GetEmotionColor(emotion: Option<string>): (c: string)
    ensures emotion.Some? && Lower(emotion.value) in EMOTION_COLORS ==> c == EMOTION_COLORS[Lower(emotion.value)]
    ensures emotion.None? || Lower(emotion.value) !in EMOTION_COLORS ==> c == DEFAULT_COLOR
    ensures c in EMOTION_COLORS.Values
  {
    assert EMOTION_COLORS["default"] == DEFAULT_COLOR;
    if emotion.Some? && Lower(emotion.value) in EMOTION_COLORS && EMOTION_COLORS[Lower(emotion.value)] != ""
    then EMOTION_COLORS[Lower(emotion.value)]
    else DEFAULT_COLOR
  }

  /** Every name in the table, written in any mix of cases, gets its own
      colour. */
  lemma KnownColors(emotion: string)
    requires Lower(emotion) in EMOTION_COLORS
    ensures GetEmotionColor(Some(emotion)) == EMOTION_COLORS[Lower(emotion)]
    ensures forall k :: k in EMOTION_COLORS ==> Lower(k) == k
  {
    forall k | k in EMOTION_COLORS
      ensures Lower(k) == k
    {
      LowerKeepsLowerCase(k);
    }
  }

  /** Names that differ only in the case of their letters get one colour. */
  lemma ColorIgnoresCase(a: string, b: string)
    requires Lower(a) == Lower(b)
    ensures GetEmotionColor(Some(a)) == GetEmotionColor(Some(b))
  {
  }

  /** `dominantColor`: the dominant's colour once there is a result. */
  function DominantColor(result: Option<ServerResult>): (c: string)
    ensures result.None? ==> c == DEFAULT_COLOR
    ensures result.Some? ==> c == GetEmotionColor(result.value.dominant)
  {
    if result.None? then DEFAULT_COLOR else GetEmotionColor(result.value.dominant)
  }

  datatype Phase = Idle | Recording | Reviewing | Analyzing | Done

  /** An expo-av object (a recording or a sound). */
  datatype Handle = Handle(id: nat)

  const PERMISSION_MESSAGE := "Microphone access is needed to record audio."
  const START_PREFIX := "Could not start recording: "
  const STOP_PREFIX := "Could not stop recording: "
  const UNREACHABLE_MESSAGE := "Could not reach the server."
  /** What the engine reports for a call on `null` (Hermes' wording). */
  const NULL_RECORDING_ERROR := "Cannot read property 'stopAndUnloadAsync' of null"
  const NULL_URI_ERROR := "Cannot read property 'split' of null"

  /** The `try` block of `analyzeRecording`: the upload of the recorded file
      (which fails on a null uri, before any request), the request itself,
      the `ok` check of `analyzeAudio`, the JSON parse and the `error` field
      check, whose non-empty string is thrown. */
  function AnalysisOutcome(uri: Option<string>, reply: Outcome<AnalysisService.Reply>,
                           parse: string -> Outcome<ServerResult>): (r: Outcome<ServerResult>)
    ensures uri.None? ==> r == Raised(NULL_URI_ERROR)
    ensures uri.Some? && reply.Raised? ==> r == Raised(reply.message)
    ensures uri.Some? && reply.Ok? && !reply.value.ok ==>
              r == Raised(AnalysisService.ServerErrorMessage(reply.value.status, reply.value.body))
    ensures r.Ok? ==>
              && uri.Some? && reply.Ok? && reply.value.ok
              && parse(reply.value.body) == r
              && (r.value.error.None? || r.value.error.value == "")
    ensures uri.Some? && reply.Ok? && reply.value.ok ==>
              var parsed := parse(reply.value.body);
              && (parsed.Raised? ==> r == parsed)
              && (parsed.Ok? && parsed.value.error.Some? && parsed.value.error.value != "" ==>
                    r == Raised(parsed.value.error.value))
              && (parsed.Ok? && (parsed.value.error.None? || parsed.value.error.value == "") ==>
                    r == Ok(parsed.value))
  {
    if uri.None? then Raised(NULL_URI_ERROR)
    else if reply.Raised? then Raised(reply.message)
    else match AnalysisService.AudioReply(reply.value)
      case Raised(m) => Raised(m)
      case Ok(body) =>
        match parse(body)
        case Raised(m) => Raised(m)
        case Ok(res) => if res.error.Some? && res.error.value != "" then Raised(res.error.value) else Ok(res)
  }

  /** `Alert.alert('Analysis Failed', err.message || 'Could not reach the server.')`. */
  function FailureText(message: string): (t: string)
    ensures t != ""
    ensures message != "" ==> t == message
    ensures message == "" ==> t == UNREACHABLE_MESSAGE
  {
    if message != "" then message else UNREACHABLE_MESSAGE
  }

  class RecordScreen {
    var phase: Phase
    var recording: Option<Handle>
    var recordedUri: Option<string>
    var sound: Option<Handle>
    var isPlaying: bool
    var result: Option<ServerResult>
    var elapsed: nat
    /** Whether the interval in `timerRef` is running. */
    var timerActive: bool
    /** Every phase the screen has been in, in order. */
    ghost var phaseLog: seq<Phase>

    /** A running recording has its object and its timer, a finished analysis
        has its result, the log ends in the current phase, and the result
        phase is only ever entered straight from the analysing phase. */
    ghost predicate Valid()
      reads this
    {
      && (phase == Recording ==> recording.Some? && timerActive)
      && (phase == Done ==> result.Some?)
      && phaseLog != [] && phaseLog[0] == Idle && phaseLog[|phaseLog| - 1] == phase
      && (forall i :: 0 < i < |phaseLog| && phaseLog[i] == Done ==> phaseLog[i - 1] == Analyzing)
    }

    /** The initial state of every hook. */
    constructor ()
      ensures Valid()
      ensures phase == Idle && recording == None && recordedUri == None && sound == None
      ensures !isPlaying && result == None && elapsed == 0 && !timerActive
    {
      phase := Idle;
      recording, recordedUri, sound := None, None, None;
      isPlaying, result, elapsed, timerActive := false, None, 0, false;
      phaseLog := [Idle];
    }

    /** `startRecording()`. `permission` is what the permission request
        returned (or threw) and `created` the new recording (or what
        `setAudioModeAsync` or `createAsync` threw). A refusal or an error
        changes nothing but raises an alert. */
    method StartRecording(permission: Outcome<bool>, created: Outcome<Handle>) returns (alert: Option<string>)
      requires Valid()
      modifies this
      ensures Valid()
      ensures permission == Ok(true) && created.Ok? ==>
                && alert == None
                && phase == Recording && recording == Some(created.value) && elapsed == 0 && timerActive
                && recordedUri == old(recordedUri) && sound == old(sound) && isPlaying == old(isPlaying)
                && result == old(result) && phaseLog == old(phaseLog) + [Recording]
      ensures !(permission == Ok(true) && created.Ok?) ==>
                && phase == old(phase) && recording == old(recording) && recordedUri == old(recordedUri)
                && sound == old(sound) && isPlaying == old(isPlaying) && result == old(result)
                && elapsed == old(elapsed) && timerActive == old(timerActive) && phaseLog == old(phaseLog)
                && alert.Some?
      ensures permission == Ok(false) ==> alert == Some(PERMISSION_MESSAGE)
      ensures permission.Raised? ==> alert == Some(START_PREFIX + permission.message)
      ensures permission == Ok(true) && created.Raised? ==> alert == Some(START_PREFIX + created.message)
    {
      if permission.Raised? {
        return Some(START_PREFIX + permission.message);
      }
      if !permission.value {
        return Some(PERMISSION_MESSAGE);
      }
      if created.Raised? {
        return Some(START_PREFIX + created.message);
      }
      recording := Some(created.value);
      elapsed := 0;
      phase := Recording;
      phaseLog := phaseLog + [Recording];
      timerActive := true;
      alert := None;
    }

    /** One firing of the one-second interval: `setElapsed(e => e + 1)`. */
    method Tick()
      requires Valid() && timerActive
      modifies this`elapsed
      ensures Valid() && elapsed == old(elapsed) + 1
    {
      elapsed := elapsed + 1;
    }

    /** `stopRecording()`: the timer always stops. `stopped` is what
        `stopAndUnloadAsync` and then `getURI` gave (or threw). With no
        recording object the first call throws. On success the screen reviews
        the file; on failure it goes back to idle and keeps the recording
        object. */
    method StopRecording(stopped: Outcome<Option<string>>) returns (alert: Option<string>)
      requires Valid()
      modifies this
      ensures Valid()
      ensures !timerActive && elapsed == old(elapsed)
      ensures sound == old(sound) && isPlaying == old(isPlaying) && result == old(result)
      ensures old(recording).Some? && stopped.Ok? ==>
                && alert == None && phase == Reviewing && recording == None && recordedUri == stopped.value
                && phaseLog == old(phaseLog) + [Reviewing]
      ensures old(recording).None? || stopped.Raised? ==>
                && phase == Idle && recording == old(recording) && recordedUri == old(recordedUri)
                && phaseLog == old(phaseLog) + [Idle] && alert.Some?
      ensures old(recording).None? ==> alert == Some(STOP_PREFIX + NULL_RECORDING_ERROR)
      ensures old(recording).Some? && stopped.Raised? ==> alert == Some(STOP_PREFIX + stopped.message)
    {
      timerActive := false;
      if recording.None? {
        phase := Idle;
        phaseLog := phaseLog + [Idle];
        return Some(STOP_PREFIX + NULL_RECORDING_ERROR);
      }
      if stopped.Raised? {
        phase := Idle;
        phaseLog := phaseLog + [Idle];
        return Some(STOP_PREFIX + stopped.message);
      }
      recordedUri := stopped.value;
      recording := None;
      phase := Reviewing;
      phaseLog := phaseLog + [Reviewing];
      alert := None;
    }

    /** `analyzeRecording()`: shows the analysing phase, then either keeps the
        response and shows it, or raises an alert and returns to review. */
    method AnalyzeRecording(reply: Outcome<AnalysisService.Reply>, parse: string -> Outcome<ServerResult>)
      returns (alert: Option<string>)
      requires Valid()
      modifies this
      ensures Valid()
      ensures var r := AnalysisOutcome(old(recordedUri), reply, parse);
              && (r.Ok? ==> phase == Done && result == Some(r.value) && alert == None)
              && (r.Raised? ==> phase == Reviewing && result == old(result) && alert == Some(FailureText(r.message)))
              && phaseLog == old(phaseLog) + [Analyzing, phase]
      ensures recording == old(recording) && recordedUri == old(recordedUri) && sound == old(sound)
      ensures isPlaying == old(isPlaying) && elapsed == old(elapsed) && timerActive == old(timerActive)
    {
      phase := Analyzing;
      phaseLog := phaseLog + [Analyzing];
      var r := AnalysisOutcome(recordedUri, reply, parse);
      if r.Raised? {
        alert := Some(FailureText(r.message));
        phase := Reviewing;
        phaseLog := phaseLog + [Reviewing];
        return;
      }
      result := Some(r.value);
      phase := Done;
      phaseLog := phaseLog + [Done];
      alert := None;
    }

    /** `resetAll()`: stops the timer and clears every hook back to its
        initial value. */
    method ResetAll()
      requires Valid()
      modifies this
      ensures Valid()
      ensures phase == Idle && recording == None && recordedUri == None && sound == None
      ensures !isPlaying && result == None && elapsed == 0 && !timerActive
      ensures phaseLog == old(phaseLog) + [Idle]
    {
      timerActive := false;
      recording, recordedUri, sound := None, None, None;
      isPlaying, result, elapsed := false, None, 0;
      phase := Idle;
      phaseLog := phaseLog + [Idle];
    }

    /** `getTopEmotions()` on the screen's current result. */
    function TopEmotionsShown(fmt: real -> string): (rows: seq<EmotionRow>)
      reads this
      ensures result.None? || result.value.probabilities.None? ==> rows == []
      ensures result.Some? && result.value.probabilities.Some? ==>
                rows == Rows(Top5(result.value.probabilities.value), fmt)
      ensures rows == TopEmotions(result, fmt)
      ensures |rows| <= 5
    {
      TopEmotions(result, fmt)
    }
  }
}
