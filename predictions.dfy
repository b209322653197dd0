/** What the three `predict` methods share once the network has run: `torch.topk` over the
    class probabilities, and the label of a class index. The network's output is an input
    here: `ranking` lists every class index with its probability, in the order `topk`
    returns them. */
module Predictions {
  import opened Outcomes
  import opened Text
  import opened OrderedDict
  import opened Checkpoints

  /** Python `min(a, b)`. */
  function Min(a: int, b: int): (m: int)
    ensures m <= a && m <= b && (m == a || m == b)
  {
    if a <= b then a else b
  }

  /** `torch.topk(probabilities, k)`: the first `k` of the ranking; a negative `k`, or one
      larger than the number of classes, raises. */
  function TopK(ranking: seq<(nat, real)>, k: int): (r: Result<seq<(nat, real)>>)
    ensures r.Ok? <==> 0 <= k <= |ranking|
    ensures r.Ok? ==> |r.value| == k && r.value == ranking[..k]
    ensures r.Err? ==> r.fault == TopKOutOfRange(k)
  {
    if 0 <= k <= |ranking| then Ok(ranking[..k]) else Err(TopKOutOfRange(k))
  }

  /** The label `f"Unknown_{class_idx}"` of an index the table does not map. */
  function UnknownLabel(idx: nat): string {
    "Unknown_" + NatToString(idx)
  }

  /** `names.get(key, f"Unknown_{idx}")`. */
  function Label(names: Assoc<Key, string>, key: Key, idx: nat): (s: string)
    ensures Get(names, key).Some? ==> s == Get(names, key).value
    ensures Get(names, key).None? ==> s == UnknownLabel(idx)
  {
    Get(names, key).GetOr(UnknownLabel(idx))
  }

  /** Unknown labels of different indices differ. */
  lemma UnknownLabelInjective(i: nat, j: nat)
    requires UnknownLabel(i) == UnknownLabel(j)
    ensures i == j
  {
    var p := "Unknown_";
    assert NatToString(i) == UnknownLabel(i)[|p|..];
    assert NatToString(j) == UnknownLabel(j)[|p|..];
    NatToStringInjective(i, j);
  }

  /** A class table built by inverting `class_to_idx` labels an index with the class that
      was given it, when no other class shares the index. */
  lemma LabelOfInvertedClass(classToIdx: Assoc<string, Key>, i: nat, idx: nat)
    requires i < |classToIdx| && classToIdx[i].1 == IntKey(idx)
    requires forall j :: 0 <= j < |classToIdx| && j != i ==> classToIdx[j].1 != IntKey(idx)
    ensures Label(Invert(classToIdx), IntKey(idx), idx) == classToIdx[i].0
  {
    InvertGet(classToIdx, i);
  }

  /** An index no class was given is labelled `Unknown_<idx>`. */
  lemma LabelOfUnmappedIndex(classToIdx: Assoc<string, Key>, idx: nat)
    requires forall j :: 0 <= j < |classToIdx| ==> classToIdx[j].1 != IntKey(idx)
    ensures Label(Invert(classToIdx), IntKey(idx), idx) == UnknownLabel(idx)
  {
    InvertHas(classToIdx, IntKey(idx));
  }
}
