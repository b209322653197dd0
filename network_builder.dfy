/** The network shape `_create_model_architecture` builds, and the part of the strict
    `load_state_dict` check that this shape determines.

    The backbone is represented by its variant; of its parameters only the final
    feature-projection tensor `features.8.0.weight` is modelled. The replacement head is an
    `nn.Sequential` whose six layers are numbered 0..5, so its parameters are named
    `classifier.<i>.<param>`. */
module NetworkBuilder {
  import opened Text
  import opened Checkpoints

  const EfficientNetB0Name := "efficientnet_b0"
  const EfficientNetB3Name := "efficientnet_b3"
  const FeatureTensor := "features.8.0.weight"

  datatype Backbone = EfficientNetB0 | EfficientNetB3

  function BackboneName(b: Backbone): string {
    match b
    case EfficientNetB0 => EfficientNetB0Name
    case EfficientNetB3 => EfficientNetB3Name
  }

  /** `classifier[1].in_features` of the torchvision backbone. */
  function NumFeatures(b: Backbone): nat {
    match b
    case EfficientNetB0 => 1280
    case EfficientNetB3 => 1536
  }

  /** Shape of `features.8.0.weight` in each backbone. */
  function FeatureShape(b: Backbone): Shape {
    match b
    case EfficientNetB0 => [1280, 320, 1, 1]
    case EfficientNetB3 => [1536, 384, 1, 1]
  }

  datatype Layer = Dropout(p: real) | Linear(inFeatures: nat, outFeatures: nat) | ReLU | BatchNorm1d(features: nat)

  datatype Network = Network(backbone: Backbone, classifier: seq<Layer>)

  /** The backbone chosen for an architecture name; names other than the two known ones
      select `fallback` (b0 in the per-brand classifier, b3 in the brand classifier). */
  function BackboneFor(archName: string, fallback: Backbone): (b: Backbone)
    ensures BackboneName(b) == archName || b == fallback
    ensures archName != EfficientNetB0Name && archName != EfficientNetB3Name ==> b == fallback
  {
    if archName == EfficientNetB0Name then EfficientNetB0
    else if archName == EfficientNetB3Name then EfficientNetB3
    else fallback
  }

  /** `_create_model_architecture`: the backbone plus
      dropout, linear(features -> hidden), ReLU, batch norm, dropout, linear(hidden -> classes). */
  function CreateModelArchitecture(archName: string, numClasses: nat, hiddenSize: nat, fallback: Backbone): (net: Network)
    ensures net.backbone == BackboneFor(archName, fallback)
    ensures |net.classifier| == 6
    ensures net.classifier[1] == Linear(NumFeatures(net.backbone), hiddenSize)
    ensures net.classifier[5] == Linear(hiddenSize, numClasses)
  {
    var b := BackboneFor(archName, fallback);
    Network(b, [Dropout(0.3), Linear(NumFeatures(b), hiddenSize), ReLU, BatchNorm1d(hiddenSize), Dropout(0.5), Linear(hiddenSize, numClasses)])
  }

  function ParamName(i: nat, param: string): string {
    "classifier." + NatToString(i) + "." + param
  }

  /** Parameter names of different layers, or of different parameters, differ. */
  lemma ParamNameInjective(i: nat, a: string, j: nat, b: string)
    requires ParamName(i, a) == ParamName(j, b)
    ensures i == j && a == b
  {
    var p := "classifier.";
    var si, sj := NatToString(i), NatToString(j);
    var x, y := si + "." + a, sj + "." + b;
    assert ParamName(i, a) == p + x && ParamName(j, b) == p + y;
    assert x == (p + x)[|p|..] && y == (p + y)[|p|..];
    assert x == y;
    assert FirstIndex(x, '.') == |si| by {
      assert x[|si|] == '.';
      forall k | 0 <= k < |si| ensures x[k] != '.' { assert x[k] == si[k]; }
    }
    assert FirstIndex(y, '.') == |sj| by {
      assert y[|sj|] == '.';
      forall k | 0 <= k < |sj| ensures y[k] != '.' { assert y[k] == sj[k]; }
    }
    assert si == x[..|si|] && sj == y[..|sj|];
    NatToStringInjective(i, j);
    assert a == x[|si| + 1..] && b == y[|sj| + 1..];
  }

  /** The feature-projection tensor is not a head parameter. */
  lemma FeatureNotParam(i: nat, a: string)
    ensures FeatureTensor != ParamName(i, a)
  {
    assert FeatureTensor[0] == 'f' && ParamName(i, a)[0] == 'c';
  }

  /** The parameters (and buffers) one head layer at position `i` registers. */
  function LayerParams(i: nat, layer: Layer): map<string, Shape> {
    match layer
    case Linear(inF, outF) => map[ParamName(i, "weight") := [outF, inF], ParamName(i, "bias") := [outF]]
    case BatchNorm1d(n) =>
      map[ParamName(i, "weight") := [n], ParamName(i, "bias") := [n],
          ParamName(i, "running_mean") := [n], ParamName(i, "running_var") := [n],
          ParamName(i, "num_batches_tracked") := []]
    case Dropout(_) => map[]
    case ReLU => map[]
  }

  /** The parameters of head layers `from..` when the first of them sits at position `from`. */
  function HeadParams(layers: seq<Layer>, from: nat): map<string, Shape>
    decreases |layers|
  {
    if layers == [] then map[]
    else LayerParams(from, layers[0]) + HeadParams(layers[1..], from + 1)
  }

  /** A layer at position `p` registers no name of another position. */
  lemma NotInOwnLayer(p: nat, layer: Layer, i: nat, param: string)
    requires i != p
    ensures ParamName(i, param) !in LayerParams(p, layer)
  {
    if ParamName(i, param) in LayerParams(p, layer) {
      var k :| k in LayerParams(p, layer) && k == ParamName(i, param);
      match layer
      case Linear(_, _) =>
        if k == ParamName(p, "weight") { ParamNameInjective(i, param, p, "weight"); }
        else { ParamNameInjective(i, param, p, "bias"); }
      case BatchNorm1d(_) =>
        if k == ParamName(p, "weight") { ParamNameInjective(i, param, p, "weight"); }
        else if k == ParamName(p, "bias") { ParamNameInjective(i, param, p, "bias"); }
        else if k == ParamName(p, "running_mean") { ParamNameInjective(i, param, p, "running_mean"); }
        else if k == ParamName(p, "running_var") { ParamNameInjective(i, param, p, "running_var"); }
        else { ParamNameInjective(i, param, p, "num_batches_tracked"); }
    }
  }

  /** Head layers from position `from` on register no name of an earlier position. */
  lemma {:induction false} NotInHeadParams(layers: seq<Layer>, from: nat, i: nat, param: string)
    requires i < from
    ensures ParamName(i, param) !in HeadParams(layers, from)
    decreases |layers|
  {
    if layers != [] {
      NotInHeadParams(layers[1..], from + 1, i, param);
      NotInOwnLayer(from, layers[0], i, param);
    }
  }

  /** The feature-projection tensor is not among the head's parameters. */
  lemma {:induction false} FeatureNotInHead(layers: seq<Layer>, from: nat)
    ensures FeatureTensor !in HeadParams(layers, from)
    decreases |layers|
  {
    if layers != [] {
      FeatureNotInHead(layers[1..], from + 1);
      FeatureNotParam(from, "weight");
      FeatureNotParam(from, "bias");
      FeatureNotParam(from, "running_mean");
      FeatureNotParam(from, "running_var");
      FeatureNotParam(from, "num_batches_tracked");
    }
  }

  /** A head parameter named after position `from + i` is whatever layer `i` registers. */
  lemma {:induction false} HeadParamsLookup(layers: seq<Layer>, from: nat, i: nat, param: string)
    requires i < |layers|
    ensures var name := ParamName(from + i, param);
            && (name in HeadParams(layers, from) <==> name in LayerParams(from + i, layers[i]))
            && (name in HeadParams(layers, from) ==> HeadParams(layers, from)[name] == LayerParams(from + i, layers[i])[name])
    decreases |layers|
  {
    if i == 0 {
      NotInHeadParams(layers[1..], from + 1, from, param);
    } else {
      HeadParamsLookup(layers[1..], from + 1, i - 1, param);
      assert layers[1..][i - 1] == layers[i];
      NotInOwnLayer(from, layers[0], from + i, param);
    }
  }

  /** The tensors whose shapes the model fixes: the backbone's feature projection and the head. */
  function ExpectedParams(net: Network): map<string, Shape> {
    map[FeatureTensor := FeatureShape(net.backbone)] + HeadParams(net.classifier, 0)
  }

  /** `load_state_dict(state_dict, strict=True)` succeeds: every modelled tensor is present
      with its exact shape, and `restOk` says the same of the backbone tensors and key set
      that are not modelled. */
  predicate StrictLoadOk(net: Network, sd: StateDict, restOk: bool) {
    restOk && forall name :: name in ExpectedParams(net) ==> name in sd && sd[name] == ExpectedParams(net)[name]
  }

  /** The two linear layers of a built head fix the shapes of `classifier.1.weight`
      (`[hidden, features]`) and `classifier.5.weight` (`[classes, hidden]`). */
  lemma HeadShapes(archName: string, numClasses: nat, hiddenSize: nat, fallback: Backbone)
    ensures var net := CreateModelArchitecture(archName, numClasses, hiddenSize, fallback);
            var p := ExpectedParams(net);
            && ParamName(1, "weight") in p && p[ParamName(1, "weight")] == [hiddenSize, NumFeatures(net.backbone)]
            && ParamName(5, "weight") in p && p[ParamName(5, "weight")] == [numClasses, hiddenSize]
            && FeatureTensor in p && p[FeatureTensor] == FeatureShape(net.backbone)
  {
    var net := CreateModelArchitecture(archName, numClasses, hiddenSize, fallback);
    HeadParamsLookup(net.classifier, 0, 1, "weight");
    HeadParamsLookup(net.classifier, 0, 5, "weight");
    FeatureNotInHead(net.classifier, 0);
  }

  /** A strict load succeeds only with the state-dict tensors of the head matching the
      widths the network was built with. */
  lemma StrictLoadFixesHead(archName: string, numClasses: nat, hiddenSize: nat, fallback: Backbone, sd: StateDict, restOk: bool)
    requires StrictLoadOk(CreateModelArchitecture(archName, numClasses, hiddenSize, fallback), sd, restOk)
    ensures var b := BackboneFor(archName, fallback);
            && ParamName(1, "weight") in sd && sd[ParamName(1, "weight")] == [hiddenSize, NumFeatures(b)]
            && ParamName(5, "weight") in sd && sd[ParamName(5, "weight")] == [numClasses, hiddenSize]
            && FeatureTensor in sd && sd[FeatureTensor] == FeatureShape(b)
  {
    HeadShapes(archName, numClasses, hiddenSize, fallback);
  }
}
