/** What the two screens share: the JSON object the server answers with, as
    the screens read it, and the top-five table both of them render. */
module Screens {
  import opened Base
  import opened Emotions
  import Ranking

  /** A parsed response body. A key the object lacks is `None`; `probabilities`
      keeps the key order of the JSON text, which is `Object.entries` order
      for keys that are not array indices. */
  datatype ServerResult = ServerResult(probabilities: Option<Distribution>, dominant: Option<string>, error: Option<string>)

  /** One rendered line `{ emotion, probability }`; the percentage text is
      `(prob * 100).toFixed(1)`, an input `fmt` here. */
  datatype EmotionRow = EmotionRow(emotion: string, probability: string)

  function Score(e: (string, real)): real
  {
    e.1
  }

  /** The entries sorted by descending probability (a stable sort, as
      `Array.prototype.sort` is) and cut to the first five: in order, drawn
      from the table, and no entry left out is more probable than one kept. */
  function Top5(probs: Distribution): (top: Distribution)
    ensures |top| == Min(5, |probs|)
    ensures forall i, j :: 0 <= i < j < |top| ==> top[i].1 >= top[j].1
    ensures multiset(top) <= multiset(probs)
    ensures forall e :: e in probs && multiset(top)[e] < multiset(probs)[e] ==>
              forall i :: 0 <= i < |top| ==> top[i].1 >= e.1
  {
    var top := Ranking.TopK(probs, 5, Score);
    assert Ranking.NonIncreasing(top, Score);
    top
  }

  /** The `.map` to display lines. */
  function Rows(top: Distribution, fmt: real -> string): (rows: seq<EmotionRow>)
    ensures |rows| == |top|
    ensures forall i :: 0 <= i < |rows| ==> rows[i] == EmotionRow(top[i].0, fmt(top[i].1 * 100.0))
  {
    seq(|top|, i requires 0 <= i < |top| => EmotionRow(top[i].0, fmt(top[i].1 * 100.0)))
  }

  /** `getTopEmotions`: nothing without a result or without probabilities,
      otherwise at most five lines, one per kept entry in descending order. */
  function TopEmotions(result: Option<ServerResult>, fmt: real -> string): (rows: seq<EmotionRow>)
    ensures result.None? || result.value.probabilities.None? ==> rows == []
    ensures result.Some? && result.value.probabilities.Some? ==>
              && |rows| == Min(5, |result.value.probabilities.value|)
              && rows == Rows(Top5(result.value.probabilities.value), fmt)
  {
    if result.None? || result.value.probabilities.None? then []
    else Rows(Top5(result.value.probabilities.value), fmt)
  }

  /** Every kept entry is an entry of the table. */
  lemma KeptFromTable(probs: Distribution, i: nat)
    requires i < |Top5(probs)|
    ensures exists k :: 0 <= k < |probs| && Top5(probs)[i] == probs[k]
  {
    var top := Top5(probs);
    assert top[i] in multiset(probs) by {
      assert top[i] in multiset(top);
    }
  }
}
