/** The first stage, `BrandClassifier` (`app/services/brand_classifier.py`): loading the
    brand network with its class table, and formatting its top-k brands. */
module BrandClassifiers {
  import opened Outcomes
  import opened OrderedDict
  import opened Checkpoints
  import opened NetworkBuilder
  import opened Inspector
  import opened FileUtils
  import opened Config
  import opened Downloader
  import opened Predictions

  /** `self.model_info`. */
  datatype ModelInfo = ModelInfo(modelType: string, numClasses: nat, bestValAcc: real)

  /** One entry of the list `predict` returns; `confidence_percent` is not modelled. */
  datatype BrandPrediction = BrandPrediction(rank: nat, brand: string, confidence: real)

  /** The metadata read from a checkpoint, with the defaults of `_load_model`. */
  function BrandModelInfo(ck: Checkpoint): ModelInfo {
    ModelInfo(ck.modelType.GetOr(EfficientNetB3Name), ck.numClasses.GetOr(0), ck.bestValAcc.GetOr(0.0))
  }

  /** Missing metadata defaults to `efficientnet_b3`, 0 classes and accuracy 0. */
  lemma BrandModelInfoDefaults(ck: Checkpoint)
    requires ck.modelType.None? && ck.numClasses.None? && ck.bestValAcc.None?
    ensures BrandModelInfo(ck) == ModelInfo("efficientnet_b3", 0, 0.0)
  {
  }

  /** Without a tag and without a recognised feature width, the brand network is an
      EfficientNet-B3, and the builder maps any unknown architecture name to B3 as well. */
  lemma BrandFallbackIsB3(ck: Checkpoint, archName: string, numClasses: nat, hiddenSize: nat)
    requires ck.architecture.None?
    requires FeatureTensor !in StateDictOrEmpty(ck) ||
             (|StateDictOrEmpty(ck)[FeatureTensor]| > 0 && StateDictOrEmpty(ck)[FeatureTensor][0] !in {1280, 1536})
    requires archName != EfficientNetB0Name
    ensures DetectModelArchitecture(ck, EfficientNetB3) == Ok("efficientnet_b3")
    ensures CreateModelArchitecture(archName, numClasses, hiddenSize, EfficientNetB3).backbone == EfficientNetB3
  {
    DetectByLeadingDimension(ck, EfficientNetB3);
  }

  /** Without `BRAND_MODEL_PATH`, the brand network is `mark_efficientnet_b3_acc_97.46.pth`
      in the `models` directory of the base directory. */
  lemma BrandModelPathDefault(baseDir: string, env: map<string, string>, apiPort: int)
    requires "BRAND_MODEL_PATH" !in env
    ensures PathOf(FromEnvironment(baseDir, env, apiPort).brandModelPath)
            == FilePath(baseDir + "/" + DefaultBrandModelDir, DefaultBrandModelFile)
  {
    assert baseDir + "/" + DefaultBrandModelPath == (baseDir + "/" + DefaultBrandModelDir) + "/" + DefaultBrandModelFile;
    PathOfJoin(baseDir + "/" + DefaultBrandModelDir, DefaultBrandModelFile);
  }


  /** The brand classifier. Python builds and loads it in `__init__`; here allocation
      (`constructor`) and the part of `__init__` that can fail (`Initialize`) are two
      steps, and an object whose `Initialize` failed is one Python would not have kept. */
  class BrandClassifier {
    const modelPath: FilePath
    const disk: Disk
    var modelInfo: Option<ModelInfo>
    var classToIdx: Assoc<string, Key>
    var idxToClass: Assoc<Key, string>
    var model: Option<Network>

    /** `model_path or settings.BRAND_MODEL_PATH`. */
    constructor (settings: Settings, modelPath: Option<FilePath>, disk: Disk)
      ensures this.modelPath == modelPath.GetOr(PathOf(settings.brandModelPath)) && this.disk == disk
      ensures modelInfo.None? && classToIdx == [] && idxToClass == [] && model.None?
    {
      this.modelPath := modelPath.GetOr(PathOf(settings.brandModelPath));
      this.disk := disk;
      modelInfo := None;
      classToIdx := [];
      idxToClass := [];
      model := None;
    }

    /** `_download_model`: a failed download raises. */
    method DownloadModel(s: Settings, transfer: Transfer) returns (r: Result<()>)
      requires disk.Valid()
      modifies disk
      ensures disk.Valid()
      ensures disk.dirs == DownloadEffect(old(disk.dirs), s.driveBrandModelUrl, modelPath, transfer)
      ensures r.Ok? <==> !UrlUnconfigured(s.driveBrandModelUrl) && !transfer.raises && disk.Exists(modelPath)
      ensures r.Err? ==> r.fault == DownloadFailed
    {
      var ok := DownloadFromDrive(disk, s.driveBrandModelUrl, modelPath, transfer);
      if !ok {
        return Err(DownloadFailed);
      }
      return Ok(());
    }

    /** What `_load_model` leaves behind, given the node at the model path: a readable
        checkpoint sets the metadata, both tables and the network before the weights are
        checked; anything else fails and changes nothing. */
    twostate predicate LoadOutcome(new r: Result<()>, restOk: bool)
      reads this, disk
    {
      var node := disk.Lookup(modelPath);
      if node.Some? && node.value.RegularFile? && node.value.content.Saved? then
        var ck := node.value.content.checkpoint;
        && modelInfo == Some(BrandModelInfo(ck))
        && classToIdx == ck.classToIdx.GetOr([])
        && idxToClass == Invert(classToIdx)
        && model == (if BuildNetwork(ck, EfficientNetB3).Ok? then Some(BuildNetwork(ck, EfficientNetB3).value.0) else old(model))
        && (r.Ok? <==> BuildAndLoad(ck, EfficientNetB3, restOk).Ok?)
        && (r.Err? ==> r.fault == BuildAndLoad(ck, EfficientNetB3, restOk).fault)
      else
        && r == Err(UnreadableCheckpoint)
        && modelInfo == old(modelInfo) && classToIdx == old(classToIdx)
        && idxToClass == old(idxToClass) && model == old(model)
    }

    /** `_load_model`. The metadata and both class tables are assigned as soon as the
        checkpoint is read, the network once detection succeeds; only then can the strict
        load still fail. A path that is not a readable checkpoint raises in `torch.load`
        and changes nothing. */
    method LoadModel(restOk: bool) returns (r: Result<()>)
      modifies this
      ensures LoadOutcome(r, restOk)
    {
      var node := disk.Lookup(modelPath);
      if !(node.Some? && node.value.RegularFile? && node.value.content.Saved?) {
        return Err(UnreadableCheckpoint);
      }
      var ck := node.value.content.checkpoint;
      modelInfo := Some(BrandModelInfo(ck));
      classToIdx := ck.classToIdx.GetOr([]);
      idxToClass := Invert(classToIdx);
      var built := BuildNetwork(ck, EfficientNetB3);
      if built.Err? {
        return Err(built.fault);
      }
      model := Some(built.value.0);
      if ck.modelStateDict.None? {
        return Err(MissingKey("model_state_dict"));
      }
      if !StrictLoadOk(built.value.0, ck.modelStateDict.value, restOk) {
        return Err(WeightMismatch);
      }
      return Ok(());
    }

    /** The body of `__init__`: download when the file is missing, then load. */
    method Initialize(s: Settings, transfer: Transfer, restOk: bool) returns (r: Result<()>)
      requires disk.Valid()
      modifies this, disk
      ensures disk.Valid()
      ensures old(disk.Exists(modelPath)) ==> disk.dirs == old(disk.dirs)
      ensures !old(disk.Exists(modelPath)) ==> disk.dirs == DownloadEffect(old(disk.dirs), s.driveBrandModelUrl, modelPath, transfer)
      ensures !old(disk.Exists(modelPath)) && UrlUnconfigured(s.driveBrandModelUrl) ==> r == Err(DownloadFailed)
      ensures !old(disk.Exists(modelPath)) && !(!UrlUnconfigured(s.driveBrandModelUrl) && !transfer.raises && disk.Exists(modelPath)) ==>
                r == Err(DownloadFailed)
      ensures old(disk.Exists(modelPath)) || (!UrlUnconfigured(s.driveBrandModelUrl) && !transfer.raises && disk.Exists(modelPath)) ==>
                LoadOutcome(r, restOk)
      ensures r.Ok? ==> model.Some? && modelInfo.Some? && idxToClass == Invert(classToIdx)
    {
      if !disk.Exists(modelPath) {
        var d := DownloadModel(s, transfer);
        if d.Err? {
          return Err(d.fault);
        }
      }
      r := LoadModel(restOk);
    }

    /** `predict` after the network has produced `ranking`: `min(top_k, len(idx_to_class))`
        entries, ranked from 1, each labelled through `idx_to_class` by its integer index.
        A `k` that `topk` refuses raises, and so does an empty result, through
        `predictions[0]` in the log line. */
    method Predict(topK: int, ranking: seq<(nat, real)>) returns (r: Result<seq<BrandPrediction>>)
      ensures var k := Min(topK, |idxToClass|);
              && (r.Ok? <==> 0 < k <= |ranking|)
              && (!(0 <= k <= |ranking|) ==> r == Err(TopKOutOfRange(k)))
              && (k == 0 ==> r == Err(NoPredictions))
              && (r.Ok? ==> |r.value| == k)
              && (r.Ok? ==> forall i :: 0 <= i < k ==>
                    r.value[i] == BrandPrediction(i + 1, Label(idxToClass, IntKey(ranking[i].0), ranking[i].0), ranking[i].1))
    {
      var k := Min(topK, |idxToClass|);
      var top := TopK(ranking, k);
      if top.Err? {
        return Err(top.fault);
      }
      var predictions: seq<BrandPrediction> := [];
      var i := 0;
      while i < |top.value|
        invariant 0 <= i <= k
        invariant |predictions| == i
        invariant forall j :: 0 <= j < i ==>
                    predictions[j] == BrandPrediction(j + 1, Label(idxToClass, IntKey(ranking[j].0), ranking[j].0), ranking[j].1)
      {
        var classIdx := top.value[i].0;
        var prob := top.value[i].1;
        var brand := Label(idxToClass, IntKey(classIdx), classIdx);
        predictions := predictions + [BrandPrediction(i + 1, brand, prob)];
        i := i + 1;
      }
      if predictions == [] {
        return Err(NoPredictions);
      }
      return Ok(predictions);
    }
  }
}
