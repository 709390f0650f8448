/** The multi-hot target encoding of ml/train_text_full.py
    (`preprocess_labels`): a zero list of one slot per label name, with a 1
    written at every in-range label index of the example. */
module TrainTextFull {
  import opened Base

  /** `vec[l] = 1` when the guard lets `l` through, as one step of the loop. */
  function Mark(v: seq<int>, l: Option<int>): (w: seq<int>)
    ensures |w| == |v|
    ensures forall k :: 0 <= k < |v| ==> w[k] == (if l == Some(k) then 1 else v[k])
  {
    if l.Some? && 0 <= l.value < |v| then v[l.value := 1] else v
  }

  /** The loop over `labels`, one `Mark` per element, from `[0] * n`. */
  function Scatter(labels: seq<Option<int>>, n: nat): (v: seq<int>)
    ensures |v| == n
  {
    if labels == [] then seq(n, _ => 0)
    else Mark(Scatter(labels[..|labels| - 1], n), labels[|labels| - 1])
  }

  /** Slot `i` is 1 exactly when `i` occurs among the labels, and 0
      otherwise: `None`, negative and too-large indices leave no trace. */
  lemma {:induction false} ScatterAt(labels: seq<Option<int>>, n: nat, i: int)
    requires 0 <= i < n
    ensures Scatter(labels, n)[i] == (if Some(i) in labels then 1 else 0)
  {
    if labels != [] {
      var init := labels[..|labels| - 1];
      ScatterAt(init, n, i);
      assert labels == init + [labels[|labels| - 1]];
    }
  }

  /** The encoding sees only which in-range indices occur: their order, their
      repetitions and every ignored element make no difference. */
  lemma SameMarks(a: seq<Option<int>>, b: seq<Option<int>>, n: nat)
    requires forall i :: 0 <= i < n ==> (Some(i) in a <==> Some(i) in b)
    ensures Scatter(a, n) == Scatter(b, n)
  {
    forall i | 0 <= i < n
      ensures Scatter(a, n)[i] == Scatter(b, n)[i]
    {
      ScatterAt(a, n, i);
      ScatterAt(b, n, i);
    }
  }

  /** A repeated index gives the same vector as a single occurrence. */
  lemma DuplicateIgnored(labels: seq<Option<int>>, x: Option<int>, n: nat)
    requires x in labels
    ensures Scatter(labels + [x], n) == Scatter(labels, n)
  {
    SameMarks(labels + [x], labels, n);
  }

  /** The loop itself, on the list `vec` it allocates and fills in place. */
  method BuildMultiLabel(labels: seq<Option<int>>, n: nat) returns (vec: seq<int>)
    ensures vec == Scatter(labels, n)
    ensures |vec| == n
    ensures forall i :: 0 <= i < n ==> (vec[i] == 1 <==> Some(i) in labels) && (vec[i] == 0 <==> Some(i) !in labels)
  {
    var a := new int[n](_ => 0);
    var k := 0;
    while k < |labels|
      invariant 0 <= k <= |labels|
      invariant a.Length == n
      invariant a[..] == Scatter(labels[..k], n)
    {
      assert labels[..k + 1][..k] == labels[..k];
      var l := labels[k];
      if l.Some? && 0 <= l.value < n {
        a[l.value] := 1;
      }
      k := k + 1;
    }
    assert labels[..|labels|] == labels;
    vec := a[..];
    forall i | 0 <= i < n
      ensures vec[i] == (if Some(i) in labels then 1 else 0)
    {
      ScatterAt(labels, n, i);
    }
  }

  /** `example.get('labels', [])`. */
  function LabelsOrEmpty(labels: Option<seq<Option<int>>>): (r: seq<Option<int>>)
    ensures labels.None? ==> r == []
    ensures labels.Some? ==> r == labels.value
  {
    if labels.Some? then labels.value else []
  }

  /** A dataset example: its 'labels' entry (`None` when the key is absent)
      and its 'multi_label' entry (`None` until it is first written). A
      'labels' key present with the value None is not represented: for it
      the loop of `preprocess_labels` would raise TypeError. */
  class Example {
    var labels: Option<seq<Option<int>>>
    var multiLabel: Option<seq<int>>

    constructor (labels: Option<seq<Option<int>>>)
      ensures this.labels == labels && multiLabel == None
    {
      this.labels := labels;
      multiLabel := None;
    }
  }

  /** `preprocess_labels(example, label_list)`: writes 'multi_label' of the
      example in place, touches nothing else and hands back the same object. */
  method PreprocessLabels(example: Example, labelList: seq<string>) returns (r: Example)
    modifies example`multiLabel
    ensures r == example
    ensures example.multiLabel == Some(Scatter(LabelsOrEmpty(example.labels), |labelList|))
    ensures example.labels.None? ==> forall i :: 0 <= i < |labelList| ==> example.multiLabel.value[i] == 0
  {
    var vec := BuildMultiLabel(LabelsOrEmpty(example.labels), |labelList|);
    example.multiLabel := Some(vec);
    r := example;
  }
}
