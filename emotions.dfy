/** Label distributions shared by the text and audio classifiers: an ordered
    label -> score dict (Python dicts keep insertion order, and the dominant
    label depends on that order) and its dominant label. */
module Emotions {
  import opened Base

  type Distribution = seq<(string, real)>

  /** What both classifiers' `predict` return: `(mapping, dominant)`. */
  datatype Prediction = Prediction(probabilities: Distribution, dominant: string)

  /** The degraded text result `({"neutral": 1.0}, "neutral")`. */
  const NEUTRAL_ONLY: Prediction := Prediction([("neutral", 1.0)], "neutral")

  function Keys(d: Distribution): (ks: seq<string>)
    ensures |ks| == |d|
    ensures forall i :: 0 <= i < |d| ==> ks[i] == d[i].0
  {
    seq(|d|, i requires 0 <= i < |d| => d[i].0)
  }

  predicate Distinct(s: seq<string>)
  {
    forall i, j :: 0 <= i < j < |s| ==> s[i] != s[j]
  }

  /** `m` holds the label of position `i` with the score of position `i`, for
      every position both lists have. */
  predicate ScoredBy(m: Distribution, labels: seq<string>, probs: seq<real>)
  {
    && |m| == Min(|labels|, |probs|)
    && Keys(m) == labels[..|m|]
    && forall i :: 0 <= i < |m| ==> m[i].1 == probs[i]
  }

  /** `{labels[i]: float(probs[i]) for i in range(min(len(labels), len(probs)))}`.
      With distinct labels no key is written twice, so the ordered list of pairs
      is exactly the dict Python builds. */
  function LabelScores(labels: seq<string>, probs: seq<real>): (m: Distribution)
    ensures ScoredBy(m, labels, probs)
    ensures Distinct(labels) ==> Distinct(Keys(m))
  {
    var n := Min(|labels|, |probs|);
    var m := seq(n, i requires 0 <= i < n => (labels[i], probs[i]));
    assert Keys(m) == labels[..n];
    m
  }

  /** `k` is the index of a largest score and no earlier score equals it. */
  predicate IsFirstMaxAt(d: Distribution, k: int)
  {
    && 0 <= k < |d|
    && (forall j :: 0 <= j < |d| ==> d[j].1 <= d[k].1)
    && (forall j :: 0 <= j < k ==> d[j].1 < d[k].1)
  }

  predicate IsFirstMax(d: Distribution, name: string)
  {
    exists k :: 0 <= k < |d| && IsFirstMaxAt(d, k) && d[k].0 == name
  }

  /** The position `max(d.items(), key=lambda x: x[1])` picks: Python keeps the
      current maximum and replaces it only by a strictly larger score. */
  function FirstMaxIndex(d: Distribution): (k: nat)
    requires |d| > 0
    ensures IsFirstMaxAt(d, k)
  {
    if |d| == 1 then 0
    else
      var k := FirstMaxIndex(d[..|d| - 1]);
      if d[|d| - 1].1 > d[k].1 then |d| - 1 else k
  }

  /** `max(mapping.items(), key=lambda x: x[1])[0]`. */
  function Dominant(d: Distribution): (name: string)
    requires |d| > 0
    ensures IsFirstMax(d, name)
    ensures name in Keys(d)
  {
    var k := FirstMaxIndex(d);
    assert Keys(d)[k] == d[k].0;
    d[k].0
  }

  /** The first-maximum position is unique. */
  lemma FirstMaxAtUnique(d: Distribution, k1: int, k2: int)
    requires IsFirstMaxAt(d, k1) && IsFirstMaxAt(d, k2)
    ensures k1 == k2
  {
    assert d[k1].1 <= d[k2].1 && d[k2].1 <= d[k1].1;
  }

  /** With distinct keys, "the first label of largest score" names one label. */
  lemma FirstMaxUnique(d: Distribution, a: string, b: string)
    requires Distinct(Keys(d))
    requires IsFirstMax(d, a) && IsFirstMax(d, b)
    ensures a == b
  {
    var ka :| IsFirstMaxAt(d, ka) && d[ka].0 == a;
    var kb :| IsFirstMaxAt(d, kb) && d[kb].0 == b;
    FirstMaxAtUnique(d, ka, kb);
  }
}
