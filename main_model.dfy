/** The stand-alone service of `main.py`: `CarClassificationModel`, a single EfficientNet-B3
    over brand-and-model classes (742 by default), and the request checks of its `/predict`
    endpoint. */
module CarApi {
  import opened Outcomes
  import opened Text
  import opened OrderedDict
  import opened Checkpoints
  import opened NetworkBuilder
  import opened Inspector
  import opened FileUtils
  import opened Config
  import opened Downloader
  import opened Predictions
  import opened ImageProcessor

  /** `MODEL_PATH` when the environment does not set it: a file of the `models` directory. */
  const DefaultModelDir := "models"
  const DefaultModelFile := "best_model_efficientnet_b3_acc_84.81.pth"
  const DefaultModelPath := DefaultModelDir + "/" + DefaultModelFile

  /** `MODEL_PATH`, the path the module hands to `CarClassificationModel`. */
  function ModelPathSetting(env: map<string, string>): string {
    Getenv(env, "MODEL_PATH", DefaultModelPath)
  }

  /** Without `MODEL_PATH`, the car network is `best_model_efficientnet_b3_acc_84.81.pth`
      in `models`; a setting with a `/` is split into its directory and its last component. */
  lemma ModelPathSettingFile(env: map<string, string>)
    ensures "MODEL_PATH" !in env ==> PathOf(ModelPathSetting(env)) == FilePath(DefaultModelDir, DefaultModelFile)
    ensures "MODEL_PATH" in env && '/' in env["MODEL_PATH"] ==>
              var p := PathOf(ModelPathSetting(env));
              p.dir + "/" + p.name == env["MODEL_PATH"] && '/' !in p.name
  {
    PathOfJoin(DefaultModelDir, DefaultModelFile);
  }



  /** `num_classes` when the checkpoint does not say. */
  const DefaultNumClasses: nat := 742

  /** The placeholder this service looks for in `DRIVE_MODEL_URL`; longer than the one
      `Settings.validate` and the downloader look for. */
  const PlaceholderId := "SEU_FILE_ID_AQUI"

  /** The largest `top_k` the endpoint accepts. */
  const MaxTopK := 10

  /** `self.model_info`. */
  datatype ModelInfo = ModelInfo(modelType: string, numClasses: nat, bestValAcc: real, epoch: nat)

  /** One entry of `predictions`; `confidence_percent` is not modelled. */
  datatype CarPrediction = CarPrediction(rank: nat, brand: string, model: string, brandModel: string, confidence: real)

  /** The dictionary `predict` returns: `success: True` with the predictions and model
      information, or `success: False` with the error. */
  datatype PredictResponse =
    | PredictSuccess(predictions: seq<CarPrediction>, accuracy: real, totalClasses: nat)
    | PredictFailure(fault: Fault)

  /** The metadata read from a checkpoint, with the defaults of `_load_model`. */
  function CarModelInfo(ck: Checkpoint): ModelInfo {
    ModelInfo(ck.modelType.GetOr(EfficientNetB3Name), ck.numClasses.GetOr(DefaultNumClasses), ck.bestValAcc.GetOr(0.0), ck.epoch.GetOr(0))
  }

  /** Missing metadata defaults to `efficientnet_b3`, 742 classes, accuracy 0 and epoch 0. */
  lemma CarModelInfoDefaults(ck: Checkpoint)
    requires ck.modelType.None? && ck.numClasses.None? && ck.bestValAcc.None? && ck.epoch.None?
    ensures CarModelInfo(ck) == ModelInfo("efficientnet_b3", 742, 0.0, 0)
  {
  }

  /** The network `_load_model` builds: always B3, hidden width 512, and as many outputs
      as the metadata says; nothing is read from the tensors. */
  function CarNetwork(info: ModelInfo): (net: Network)
    ensures net.backbone == EfficientNetB3 && |net.classifier| == 6
    ensures net.classifier[1] == Linear(1536, DefaultHiddenSize)
    ensures net.classifier[5] == Linear(DefaultHiddenSize, info.numClasses)
  {
    CreateModelArchitecture(EfficientNetB3Name, info.numClasses, DefaultHiddenSize, EfficientNetB3)
  }

  /** Whatever the model type in the checkpoint, the network is the B3 one the per-brand
      classifier detects for an untagged B3 checkpoint with hidden width 512. */
  lemma CarNetworkIgnoresModelType(ck: Checkpoint, restOk: bool)
    requires ck.architecture.None? && ck.numClasses.Some? && ck.modelStateDict.Some?
    requires StrictLoadOk(CarNetwork(CarModelInfo(ck)), ck.modelStateDict.value, restOk)
    ensures BuildAndLoad(ck, EfficientNetB0, restOk) == Ok((CarNetwork(CarModelInfo(ck)), EfficientNetB3Name))
  {
    DetectRoundTrip(EfficientNetB3, ck.numClasses.value, DefaultHiddenSize, EfficientNetB0, ck, restOk);
  }

  /** The `DRIVE_MODEL_URL` check: missing, empty or holding the placeholder. */
  predicate DriveUrlRejected(url: Option<string>) {
    url.None? || url.value == [] || Contains(url.value, PlaceholderId)
  }

  /** Every URL this service rejects is one `Settings.validate` and the downloader reject
      too, since the longer placeholder contains the shorter. */
  lemma DriveUrlRejectedIsUnconfigured(url: string)
    requires DriveUrlRejected(Some(url))
    ensures UrlUnconfigured(url)
  {
    assert PlaceholderId == "SEU_FILE_ID" + "_AQUI";
    if url != [] {
      ContainsLonger(url, "SEU_FILE_ID", "_AQUI");
    }
  }

  /** The converse fails: a URL that holds only the short placeholder passes this check. */
  lemma ShortPlaceholderAccepted()
    ensures !DriveUrlRejected(Some("SEU_FILE_ID")) && UrlUnconfigured("SEU_FILE_ID")
  {
    if Contains("SEU_FILE_ID", PlaceholderId) {
      ContainsLength("SEU_FILE_ID", PlaceholderId);
    }
    assert IsPrefix("SEU_FILE_ID", "SEU_FILE_ID");
  }

  /** The brand and model of a class name: split at the first `_`, or the whole name and
      `Unknown` when there is none. */
  function SplitClassName(className: string): (bm: (string, string))
    ensures '_' !in bm.0
    ensures '_' in className ==> bm.0 + "_" + bm.1 == className
    ensures '_' !in className ==> bm == (className, "Unknown")
  {
    if '_' in className then SplitFirst(className, '_') else (className, "Unknown")
  }

  /** Splitting a name of the form `brand_model` with `_`-free `brand` gives its two
      parts back; `model` may itself hold `_`. */
  lemma SplitClassNameRoundTrip(brand: string, model: string)
    requires '_' !in brand
    ensures SplitClassName(brand + "_" + model) == (brand, model)
  {
    var s := brand + "_" + model;
    assert s[|brand|] == '_';
    var bm := SplitClassName(s);
    assert FirstIndex(s, '_') == |brand| by {
      forall k | 0 <= k < |brand| ensures s[k] != '_' { assert s[k] == brand[k]; }
    }
    assert bm.0 == s[..|brand|] == brand;
    assert bm.1 == s[|brand| + 1..] == model;
  }

  /** An unmapped index is reported as brand `Unknown` and model `<idx>`. */
  lemma UnknownLabelSplits(idx: nat)
    ensures SplitClassName(UnknownLabel(idx)) == ("Unknown", NatToString(idx))
  {
    assert UnknownLabel(idx) == "Unknown" + "_" + NatToString(idx);
    SplitClassNameRoundTrip("Unknown", NatToString(idx));
  }

  /** The entry `predict` makes for one `(index, probability)` pair. */
  function CarPredictionAt(idxToClass: Assoc<Key, string>, rank: nat, pair: (nat, real)): CarPrediction {
    var className := Label(idxToClass, IntKey(pair.0), pair.0);
    var bm := SplitClassName(className);
    CarPrediction(rank, bm.0, bm.1, className, pair.1)
  }

  /** The unsplit class name is kept, and brand and model rejoin to it when it holds `_`. */
  lemma CarPredictionParts(idxToClass: Assoc<Key, string>, rank: nat, pair: (nat, real))
    ensures var p := CarPredictionAt(idxToClass, rank, pair);
            && p.brandModel == Label(idxToClass, IntKey(pair.0), pair.0)
            && ('_' in p.brandModel ==> p.brand + "_" + p.model == p.brandModel)
            && ('_' !in p.brandModel ==> p.brand == p.brandModel && p.model == "Unknown")
            && p.rank == rank && p.confidence == pair.1
  {
  }

  /** The HTTP status `predict_car` answers with before it reads the file: 503 without a
      model, then 400 for a content type that is missing or not `image/...`, then 400 for
      `top_k` outside 1..10; `None` when the request goes ahead. */
  function CheckPredictRequest(modelLoaded: bool, contentType: Option<string>, topK: int): (status: Option<nat>)
    ensures status.None? <==>
              modelLoaded && contentType.Some? && IsPrefix("image/", contentType.value) && 1 <= topK <= MaxTopK
    ensures !modelLoaded ==> status == Some(503)
    ensures modelLoaded && status.Some? ==> status == Some(400)
  {
    if !modelLoaded then Some(503)
    else if contentType.None? || contentType.value == [] || !IsPrefix("image/", contentType.value) then Some(400)
    else if topK < 1 || topK > 10 then Some(400)
    else None
  }

  /** The endpoint's content-type check is looser than `validate_image_type`: it lets
      `image/gif` through. */
  lemma EndpointAcceptsGif()
    ensures CheckPredictRequest(true, Some("image/gif"), 5).None?
    ensures !ValidateImageType("image/gif")
  {
    ValidateImageTypeRejects();
    assert "image/gif"[..6] == "image/";
  }

  /** Every type `validate_image_type` accepts passes the endpoint's check too. */
  lemma AllowedTypesPassEndpoint(contentType: string, topK: int)
    requires ValidateImageType(contentType) && 1 <= topK <= MaxTopK
    ensures CheckPredictRequest(true, Some(contentType), topK).None?
  {
    ValidateImageTypeExact(contentType);
  }

  /** The loop of `predict` over the `topk` pairs. */
  method FormatCarPredictions(idxToClass: Assoc<Key, string>, top: seq<(nat, real)>) returns (predictions: seq<CarPrediction>)
    ensures |predictions| == |top|
    ensures forall i :: 0 <= i < |top| ==> predictions[i] == CarPredictionAt(idxToClass, i + 1, top[i])
  {
    predictions := [];
    var i := 0;
    while i < |top|
      invariant 0 <= i <= |top|
      invariant |predictions| == i
      invariant forall j :: 0 <= j < i ==> predictions[j] == CarPredictionAt(idxToClass, j + 1, top[j])
    {
      var classIdx := top[i].0;
      var prob := top[i].1;
      var className := Label(idxToClass, IntKey(classIdx), classIdx);
      var brandModel := SplitClassName(className);
      predictions := predictions + [CarPrediction(i + 1, brandModel.0, brandModel.1, className, prob)];
      i := i + 1;
    }
  }

  /** `CarClassificationModel`. Python builds and loads it in `__init__`; here allocation
      (`constructor`) and the part of `__init__` that can fail (`Initialize`) are two
      steps, and an object whose `Initialize` failed is one Python would not have kept. */
  class CarClassificationModel {
    const modelPath: FilePath
    const disk: Disk
    var modelInfo: Option<ModelInfo>
    var classToIdx: Assoc<string, Key>
    var idxToClass: Assoc<Key, string>
    var model: Option<Network>

    /** `self.model_path = Path(model_path)`. */
    constructor (modelPath: string, disk: Disk)
      ensures this.modelPath == PathOf(modelPath) && this.disk == disk
      ensures modelInfo.None? && classToIdx == [] && idxToClass == [] && model.None?
    {
      this.modelPath := PathOf(modelPath);
      this.disk := disk;
      modelInfo := None;
      classToIdx := [];
      idxToClass := [];
      model := None;
    }

    /** `_download_model_from_drive`: a rejected URL raises before anything is done;
        otherwise the parent directory is made and the transfer runs; a transfer that
        raises, or a file still missing afterwards, raises. */
    method DownloadModelFromDrive(driveUrl: Option<string>, transfer: Transfer) returns (r: Result<()>)
      requires disk.Valid()
      modifies disk
      ensures disk.Valid()
      ensures DriveUrlRejected(driveUrl) ==> r == Err(Fault.UrlNotConfigured) && disk.dirs == old(disk.dirs)
      ensures !DriveUrlRejected(driveUrl) ==>
                && disk.dirs == AfterTransfer(WithDirectory(old(disk.dirs), modelPath.dir), modelPath, transfer)
                && (r.Ok? <==> !transfer.raises && disk.Exists(modelPath))
                && (transfer.raises ==> r == Err(TransferFailed))
                && (!transfer.raises && !disk.Exists(modelPath) ==> r == Err(FileMissingAfterDownload))
    {
      if driveUrl.None? || driveUrl.value == [] || Contains(driveUrl.value, PlaceholderId) {
        return Err(Fault.UrlNotConfigured);
      }
      disk.EnsureDirectory(modelPath.dir);
      if transfer.written.Some? {
        disk.WriteFile(modelPath, transfer.written.value);
      }
      if transfer.raises {
        return Err(TransferFailed);
      }
      if !disk.Exists(modelPath) {
        return Err(FileMissingAfterDownload);
      }
      return Ok(());
    }

    /** What `_load_model` leaves behind, given the node at the model path: a readable
        checkpoint sets the metadata, both tables and the network before the weights are
        checked; anything else fails and changes nothing. */
    twostate predicate LoadOutcome(new r: Result<()>, restOk: bool)
      reads this, disk
    {
      var node := disk.Lookup(modelPath);
      if node.Some? && node.value.RegularFile? && node.value.content.Saved? then
        var ck := node.value.content.checkpoint;
        && modelInfo == Some(CarModelInfo(ck))
        && classToIdx == ck.classToIdx.GetOr([])
        && idxToClass == Invert(classToIdx)
        && model == Some(CarNetwork(CarModelInfo(ck)))
        && (ck.modelStateDict.None? ==> r == Err(MissingKey("model_state_dict")))
        && (ck.modelStateDict.Some? ==>
              if StrictLoadOk(CarNetwork(CarModelInfo(ck)), ck.modelStateDict.value, restOk) then r == Ok(())
              else r == Err(WeightMismatch))
      else
        && r == Err(UnreadableCheckpoint)
        && modelInfo == old(modelInfo) && classToIdx == old(classToIdx)
        && idxToClass == old(idxToClass) && model == old(model)
    }

    /** `_load_model`. The metadata, both class tables and the B3 network are assigned
        as soon as the checkpoint is read; then a missing `model_state_dict` or a strict
        load that fails raises. A path that is not a readable checkpoint raises in
        `torch.load` and changes nothing. */
    method LoadModel(restOk: bool) returns (r: Result<()>)
      modifies this
      ensures LoadOutcome(r, restOk)
    {
      var node := disk.Lookup(modelPath);
      if !(node.Some? && node.value.RegularFile? && node.value.content.Saved?) {
        return Err(UnreadableCheckpoint);
      }
      var ck := node.value.content.checkpoint;
      var info := CarModelInfo(ck);
      modelInfo := Some(info);
      classToIdx := ck.classToIdx.GetOr([]);
      idxToClass := Invert(classToIdx);
      var net := CreateModelArchitecture(EfficientNetB3Name, info.numClasses, DefaultHiddenSize, EfficientNetB3);
      model := Some(net);
      if ck.modelStateDict.None? {
        return Err(MissingKey("model_state_dict"));
      }
      if !StrictLoadOk(net, ck.modelStateDict.value, restOk) {
        return Err(WeightMismatch);
      }
      return Ok(());
    }

    /** The body of `__init__`: download when the file is missing, then load. */
    method Initialize(driveUrl: Option<string>, transfer: Transfer, restOk: bool) returns (r: Result<()>)
      requires disk.Valid()
      modifies this, disk
      ensures disk.Valid()
      ensures old(disk.Exists(modelPath)) ==> disk.dirs == old(disk.dirs)
      ensures !old(disk.Exists(modelPath)) && DriveUrlRejected(driveUrl) ==> r == Err(Fault.UrlNotConfigured) && disk.dirs == old(disk.dirs)
      ensures !old(disk.Exists(modelPath)) && !DriveUrlRejected(driveUrl) ==>
                && disk.dirs == AfterTransfer(WithDirectory(old(disk.dirs), modelPath.dir), modelPath, transfer)
                && (transfer.raises ==> r == Err(TransferFailed))
                && (!transfer.raises && !disk.Exists(modelPath) ==> r == Err(FileMissingAfterDownload))
      ensures old(disk.Exists(modelPath)) || (!DriveUrlRejected(driveUrl) && !transfer.raises && disk.Exists(modelPath)) ==>
                LoadOutcome(r, restOk)
      ensures r.Ok? ==> model.Some? && modelInfo.Some? && idxToClass == Invert(classToIdx)
      ensures r.Ok? ==> model == Some(CarNetwork(modelInfo.value))
    {
      if !disk.Exists(modelPath) {
        var d := DownloadModelFromDrive(driveUrl, transfer);
        if d.Err? {
          return d;
        }
      }
      r := LoadModel(restOk);
    }

    /** `predict` after the network has produced `ranking`: `min(top_k, len(idx_to_class))`
        entries, ranked from 1, each labelled through `idx_to_class` by its integer index
        and split into brand and model. Every failure is returned as `success: False`. */
    method Predict(topK: int, ranking: seq<(nat, real)>) returns (resp: PredictResponse)
      ensures model.None? || modelInfo.None? ==> resp == PredictFailure(ModelNotLoaded)
      ensures model.Some? && modelInfo.Some? ==>
                var k := Min(topK, |idxToClass|);
                && (resp.PredictSuccess? <==> 0 <= k <= |ranking|)
                && (resp.PredictFailure? ==> resp.fault == TopKOutOfRange(k))
                && (resp.PredictSuccess? ==>
                      && resp.accuracy == modelInfo.value.bestValAcc
                      && resp.totalClasses == modelInfo.value.numClasses
                      && |resp.predictions| == k
                      && forall i :: 0 <= i < k ==> resp.predictions[i] == CarPredictionAt(idxToClass, i + 1, ranking[i]))
    {
      if model.None? || modelInfo.None? {
        return PredictFailure(ModelNotLoaded);
      }
      var k := Min(topK, |idxToClass|);
      var top := TopK(ranking, k);
      if top.Err? {
        return PredictFailure(top.fault);
      }
      var predictions := FormatCarPredictions(idxToClass, top.value);
      resp := PredictSuccess(predictions, modelInfo.value.bestValAcc, modelInfo.value.numClasses);
    }
  }

  /** A request that passes the endpoint's checks, on a model with at least one class and
      a ranking over the whole table, gets between 1 and 10 predictions. */
  lemma AcceptedRequestCount(loaded: bool, contentType: Option<string>, topK: int, classes: nat, rankingLength: nat)
    requires CheckPredictRequest(loaded, contentType, topK).None?
    requires classes >= 1 && rankingLength >= classes
    ensures 1 <= Min(topK, classes) <= MaxTopK && Min(topK, classes) <= rankingLength
  {
  }
}
