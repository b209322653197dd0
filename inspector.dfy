/** Reading the network shape off a checkpoint (`_detect_model_architecture`,
    `_detect_classifier_hidden_size`) and rebuilding and strictly loading the network from it.
    Both classifiers share this logic; they differ only in the backbone used when nothing
    can be detected: b0 for the per-brand classifier, b3 for the brand classifier. */
module Inspector {
  import opened Outcomes
  import opened Text
  import opened Checkpoints
  import opened NetworkBuilder

  const HiddenTensor := "classifier.1.weight"
  const DefaultHiddenSize: nat := 512

  /** The tensor the hidden size is read from is the weight of head layer 1. */
  lemma HiddenTensorIsHeadWeight()
    ensures HiddenTensor == ParamName(1, "weight")
  {
    assert NatToString(1) == "1";
  }

  /** The architecture name of a checkpoint: its explicit tag, else the backbone whose
      feature projection has the leading dimension found, else the fallback's name. A
      zero-dimensional feature tensor makes `shape[0]` raise. */
  function DetectModelArchitecture(ck: Checkpoint, fallback: Backbone): (r: Result<string>)
    ensures ck.architecture.Some? ==> r == Ok(ck.architecture.value)
    ensures r.Err? <==> ck.architecture.None? && FeatureTensor in StateDictOrEmpty(ck) && StateDictOrEmpty(ck)[FeatureTensor] == []
    ensures r.Err? ==> r.fault == ZeroDimShape(FeatureTensor)
    ensures ck.architecture.None? && r.Ok? ==>
              r.value == BackboneName(EfficientNetB0) || r.value == BackboneName(EfficientNetB3) || r.value == BackboneName(fallback)
  {
    if ck.architecture.Some? then Ok(ck.architecture.value)
    else
      var sd := StateDictOrEmpty(ck);
      if FeatureTensor in sd then
        var shape := sd[FeatureTensor];
        if |shape| == 0 then Err(ZeroDimShape(FeatureTensor))
        else if shape[0] == 1280 then Ok(EfficientNetB0Name)
        else if shape[0] == 1536 then Ok(EfficientNetB3Name)
        else Ok(BackboneName(fallback))
      else Ok(BackboneName(fallback))
  }

  /** Without a tag, the leading dimension alone decides: 1280 is b0, 1536 is b3, any other
      value or a missing tensor is the fallback. */
  lemma DetectByLeadingDimension(ck: Checkpoint, fallback: Backbone)
    requires ck.architecture.None?
    ensures var sd := StateDictOrEmpty(ck);
            FeatureTensor in sd && |sd[FeatureTensor]| > 0 ==>
              DetectModelArchitecture(ck, fallback) ==
                if sd[FeatureTensor][0] == NumFeatures(EfficientNetB0) then Ok(BackboneName(EfficientNetB0))
                else if sd[FeatureTensor][0] == NumFeatures(EfficientNetB3) then Ok(BackboneName(EfficientNetB3))
                else Ok(BackboneName(fallback))
    ensures FeatureTensor !in StateDictOrEmpty(ck) ==> DetectModelArchitecture(ck, fallback) == Ok(BackboneName(fallback))
  {
  }

  /** The hidden width: the leading dimension of `classifier.1.weight`, else 512. A
      zero-dimensional tensor there makes `shape[0]` raise. */
  function DetectClassifierHiddenSize(ck: Checkpoint): (r: Result<nat>)
    ensures var sd := StateDictOrEmpty(ck);
            && (r.Err? <==> HiddenTensor in sd && sd[HiddenTensor] == [])
            && (r.Err? ==> r.fault == ZeroDimShape(HiddenTensor))
            && (r.Ok? && HiddenTensor in sd ==> r.value == sd[HiddenTensor][0])
            && (HiddenTensor !in sd ==> r == Ok(DefaultHiddenSize))
  {
    var sd := StateDictOrEmpty(ck);
    if HiddenTensor in sd then
      if |sd[HiddenTensor]| == 0 then Err(ZeroDimShape(HiddenTensor)) else Ok(sd[HiddenTensor][0])
    else Ok(DefaultHiddenSize)
  }

  /** Detect, then build: architecture, hidden size, and the network made with
      `num_classes` (default 0). Either detection can raise. */
  function BuildNetwork(ck: Checkpoint, fallback: Backbone): (r: Result<(Network, string)>)
    ensures r.Ok? <==> DetectModelArchitecture(ck, fallback).Ok? && DetectClassifierHiddenSize(ck).Ok?
    ensures r.Ok? ==> r.value.1 == DetectModelArchitecture(ck, fallback).value &&
                      r.value.0 == CreateModelArchitecture(r.value.1, ck.numClasses.GetOr(0), DetectClassifierHiddenSize(ck).value, fallback)
    ensures r.Err? ==> r.fault == if DetectModelArchitecture(ck, fallback).Err? then DetectModelArchitecture(ck, fallback).fault
                                  else DetectClassifierHiddenSize(ck).fault
  {
    match DetectModelArchitecture(ck, fallback)
    case Err(f) => Err(f)
    case Ok(arch) =>
      match DetectClassifierHiddenSize(ck)
      case Err(f) => Err(f)
      case Ok(hidden) => Ok((CreateModelArchitecture(arch, ck.numClasses.GetOr(0), hidden, fallback), arch))
  }

  /** Detect, build and strictly load, in the order both loaders do it: the steps of
      `BuildNetwork`, then `checkpoint['model_state_dict']` (a missing key raises) and
      `load_state_dict(strict=True)`. `restOk` is the outcome of the strict check on the
      tensors the model does not track. */
  function BuildAndLoad(ck: Checkpoint, fallback: Backbone, restOk: bool): (r: Result<(Network, string)>)
    ensures r.Ok? ==> ck.modelStateDict.Some? && StrictLoadOk(r.value.0, ck.modelStateDict.value, restOk)
    ensures r.Ok? ==> BuildNetwork(ck, fallback) == Ok(r.value)
    ensures BuildNetwork(ck, fallback).Err? ==> r == Err(BuildNetwork(ck, fallback).fault)
  {
    match BuildNetwork(ck, fallback)
    case Err(f) => Err(f)
    case Ok(built) =>
      if ck.modelStateDict.None? then Err(MissingKey("model_state_dict"))
      else if !StrictLoadOk(built.0, ck.modelStateDict.value, restOk) then Err(WeightMismatch)
      else Ok(built)
  }

  /** A checkpoint whose state dict was saved from a network this code builds, and that
      carries no explicit tag, is detected as that network and loads again; the result does
      not depend on the fallback. */
  lemma DetectRoundTrip(b: Backbone, numClasses: nat, hiddenSize: nat, fallback: Backbone, ck: Checkpoint, restOk: bool)
    requires ck.architecture.None? && ck.numClasses == Some(numClasses) && ck.modelStateDict.Some?
    requires StrictLoadOk(CreateModelArchitecture(BackboneName(b), numClasses, hiddenSize, b), ck.modelStateDict.value, restOk)
    ensures DetectModelArchitecture(ck, fallback) == Ok(BackboneName(b))
    ensures DetectClassifierHiddenSize(ck) == Ok(hiddenSize)
    ensures BuildAndLoad(ck, fallback, restOk) == Ok((CreateModelArchitecture(BackboneName(b), numClasses, hiddenSize, b), BackboneName(b)))
  {
    var sd := ck.modelStateDict.value;
    StrictLoadFixesHead(BackboneName(b), numClasses, hiddenSize, b, sd, restOk);
    HiddenTensorIsHeadWeight();
    assert BackboneFor(BackboneName(b), b) == b;
    assert BackboneFor(BackboneName(b), fallback) == b;
  }

  /** A tagged checkpoint keeps its tag even when its tensors belong to the other backbone;
      the strict load of the b3 network then fails on the feature projection. */
  lemma TagOverridesShapes(ck: Checkpoint, fallback: Backbone, restOk: bool)
    requires ck.architecture == Some(EfficientNetB3Name) && ck.modelStateDict.Some?
    requires FeatureTensor in ck.modelStateDict.value && ck.modelStateDict.value[FeatureTensor] == FeatureShape(EfficientNetB0)
    ensures DetectModelArchitecture(ck, fallback) == Ok(EfficientNetB3Name)
    ensures BuildAndLoad(ck, fallback, restOk).Err?
  {
    match DetectClassifierHiddenSize(ck)
    case Err(_) =>
    case Ok(hidden) =>
      var net := CreateModelArchitecture(EfficientNetB3Name, ck.numClasses.GetOr(0), hidden, fallback);
      FeatureNotInHead(net.classifier, 0);
      assert ExpectedParams(net)[FeatureTensor] == FeatureShape(EfficientNetB3);
  }
}
