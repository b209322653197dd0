/** The second stage, `CarModelClassifier` (`app/services/car_model_classifier.py`): the
    in-memory cache of per-brand networks (`loaded_models`), the resolution of a brand to its
    checkpoint file, loading with download on demand, prediction formatting, the two
    cleanups and the status report. */
module CarModelClassifiers {
  import opened Outcomes
  import opened Text
  import opened OrderedDict
  import opened Glob
  import opened Checkpoints
  import opened NetworkBuilder
  import opened Inspector
  import opened FileUtils
  import opened Config
  import opened Downloader
  import opened Predictions

  /** The part of the file name `_get_model_path` falls back to, and that the status report
      strips from file stems. */
  const DefaultSuffix := "_efficientnet_b3"

  /** `model_info` of a cache entry. */
  datatype ModelInfo = ModelInfo(brandName: string, numClasses: nat, bestValAcc: real)

  /** A value of `loaded_models`. */
  datatype CacheEntry = CacheEntry(model: Network, idxToModel: Assoc<Key, string>, modelInfo: ModelInfo, architecture: string)

  /** One entry of `predictions`; `confidence_percent` is not modelled. */
  datatype ModelPrediction = ModelPrediction(rank: nat, brand: string, model: string, brandModel: string, confidence: real)

  /** The dictionary `predict` returns: `success: True` with the predictions and model
      information, or `success: False` with the error. */
  datatype PredictResponse =
    | PredictSuccess(predictions: seq<ModelPrediction>, brand: string, accuracy: real, totalClasses: nat)
    | PredictFailure(fault: Fault)

  /** The counts `cleanup_all_models` returns. */
  datatype CleanupCounts = CleanupCounts(removedFromCache: nat, removedFromDisk: nat)

  /** One entry of `models` in `get_loaded_models_info`; `status` is `loaded` exactly when
      `in_memory` holds, and `size_mb` is not modelled. */
  datatype ModelStatus = ModelStatus(brand: string, inMemory: bool)

  datatype LoadedModelsInfo = LoadedModelsInfo(totalInMemory: nat, totalOnDisk: nat, models: seq<ModelStatus>)

  /** `settings.BASE_DIR / "models" / "car_model"`, the directory of the older layout. */
  function LegacyDir(baseDir: string): string {
    baseDir + "/models/car_model"
  }

  /** The three name patterns tried in the legacy directory, in order. */
  function AccPattern(safeBrand: string): string { safeBrand + "_model_acc_" + "*" + ".pth" }
  function PlainPattern(safeBrand: string): string { safeBrand + "_model.pth" }
  function AnyPattern(safeBrand: string): string { safeBrand + "_" + "*" + ".pth" }

  /** `idx_to_model` of a checkpoint, or `class_to_idx` inverted when that is missing or
      empty. */
  function IdxToModel(ck: Checkpoint): (t: Assoc<Key, string>)
    ensures ck.idxToModel.Some? && ck.idxToModel.value != [] ==> t == ck.idxToModel.value
    ensures ck.idxToModel.None? || ck.idxToModel.value == [] ==> t == Invert(ck.classToIdx.GetOr([]))
  {
    var t := ck.idxToModel.GetOr([]);
    if t == [] then Invert(ck.classToIdx.GetOr([])) else t
  }

  /** The entry `_load_brand_model` caches for a checkpoint it has read: detected, built
      with the b0 fallback and strictly loaded, with the metadata defaults of the source. */
  function LoadEntry(brand: string, ck: Checkpoint, restOk: bool): (r: Result<CacheEntry>)
    ensures r.Ok? <==> BuildAndLoad(ck, EfficientNetB0, restOk).Ok?
    ensures r.Err? ==> r.fault == BuildAndLoad(ck, EfficientNetB0, restOk).fault
    ensures r.Ok? ==> r.value.model == BuildAndLoad(ck, EfficientNetB0, restOk).value.0
    ensures r.Ok? ==> r.value.architecture == BuildAndLoad(ck, EfficientNetB0, restOk).value.1
    ensures r.Ok? ==> r.value.idxToModel == IdxToModel(ck)
    ensures r.Ok? ==> r.value.modelInfo == ModelInfo(ck.brandName.GetOr(brand), ck.numClasses.GetOr(0), ck.bestValAcc.GetOr(0.0))
  {
    match BuildAndLoad(ck, EfficientNetB0, restOk)
    case Err(f) => Err(f)
    case Ok((net, arch)) =>
      Ok(CacheEntry(net, IdxToModel(ck), ModelInfo(ck.brandName.GetOr(brand), ck.numClasses.GetOr(0), ck.bestValAcc.GetOr(0.0)), arch))
  }
  /** `torch.load` of the node at the model path, then `LoadEntry`: anything but a regular
      file holding a saved checkpoint cannot be read. */
  function ReadEntry(brand: string, node: Option<Node>, restOk: bool): (r: Result<CacheEntry>)
    ensures r.Ok? ==> node.Some? && node.value.RegularFile? && node.value.content.Saved?
  {
    if node.Some? && node.value.RegularFile? && node.value.content.Saved? then
      LoadEntry(brand, node.value.content.checkpoint, restOk)
    else Err(UnreadableCheckpoint)
  }


  /** A checkpoint saved from a network this code builds, without an explicit tag, loads
      as that network; the missing metadata take their defaults. */
  lemma LoadEntryRoundTrip(brand: string, b: Backbone, numClasses: nat, hiddenSize: nat, ck: Checkpoint, restOk: bool)
    requires ck.architecture.None? && ck.numClasses == Some(numClasses) && ck.modelStateDict.Some?
    requires ck.brandName.None? && ck.bestValAcc.None?
    requires StrictLoadOk(CreateModelArchitecture(BackboneName(b), numClasses, hiddenSize, b), ck.modelStateDict.value, restOk)
    ensures LoadEntry(brand, ck, restOk).Ok?
    ensures LoadEntry(brand, ck, restOk).value.model == CreateModelArchitecture(BackboneName(b), numClasses, hiddenSize, b)
    ensures LoadEntry(brand, ck, restOk).value.architecture == BackboneName(b)
    ensures LoadEntry(brand, ck, restOk).value.modelInfo == ModelInfo(brand, numClasses, 0.0)
  {
    DetectRoundTrip(b, numClasses, hiddenSize, EfficientNetB0, ck, restOk);
  }

  /** The key an index is looked up under: `str(class_idx)` when the table's first key is a
      `str`, else `class_idx` itself. */
  function LookupKey(idxToModel: Assoc<Key, string>, idx: nat): (k: Key)
    requires |idxToModel| > 0
    ensures idxToModel[0].0.StrKey? ==> k == StrKey(NatToString(idx))
    ensures idxToModel[0].0.IntKey? ==> k == IntKey(idx)
  {
    if idxToModel[0].0.StrKey? then StrKey(NatToString(idx)) else IntKey(idx)
  }

  /** The model name `predict` reports for an index. */
  function ModelLabel(idxToModel: Assoc<Key, string>, idx: nat): string
    requires |idxToModel| > 0
  {
    Label(idxToModel, LookupKey(idxToModel, idx), idx)
  }

  /** A table saved with string keys finds the entry stored under the decimal index. */
  lemma ModelLabelStringKeys(idxToModel: Assoc<Key, string>, idx: nat, name: string)
    requires |idxToModel| > 0 && idxToModel[0].0.StrKey?
    requires Get(idxToModel, StrKey(NatToString(idx))) == Some(name)
    ensures ModelLabel(idxToModel, idx) == name
  {
  }

  /** The first key alone decides the key type: in a table that starts with an integer
      key, an entry stored under the decimal string is not found. */
  lemma ModelLabelFirstKeyDecides(idx: nat, first: nat, name: string, other: string)
    requires first != idx
    ensures ModelLabel([(IntKey(first), other), (StrKey(NatToString(idx)), name)], idx) == UnknownLabel(idx)
  {
    var t := [(IntKey(first), other), (StrKey(NatToString(idx)), name)];
    GetNone(t, IntKey(idx));
  }

  /** The statuses of the cached brands, in cache order. */
  function CachedStatuses(loaded: Assoc<string, CacheEntry>): seq<ModelStatus> {
    if loaded == [] then []
    else CachedStatuses(loaded[..|loaded| - 1]) + [ModelStatus(loaded[|loaded| - 1].0, true)]
  }

  /** The brand a checkpoint file name is reported as: its stem with every
      `_efficientnet_b3` removed. */
  function DiskBrand(name: string): string {
    RemoveAll(Stem(name), DefaultSuffix)
  }

  /** The reported brand of each file, in listing order. */
  function DiskBrands(files: seq<FilePath>): (brands: seq<string>)
    ensures |brands| == |files|
  {
    seq(|files|, k requires 0 <= k < |files| => DiskBrand(files[k].name))
  }

  /** Off-memory statuses of the brands that are not cached, in order. */
  function OffMemory(loaded: Assoc<string, CacheEntry>, brands: seq<string>): seq<ModelStatus> {
    if brands == [] then []
    else
      var init, brand := OffMemory(loaded, brands[..|brands| - 1]), brands[|brands| - 1];
      if Get(loaded, brand).None? then init + [ModelStatus(brand, false)] else init
  }

  /** The statuses of the files whose reported brand is not cached, in listing order. */
  function DiskStatuses(loaded: Assoc<string, CacheEntry>, files: seq<FilePath>): seq<ModelStatus> {
    OffMemory(loaded, DiskBrands(files))
  }

  /** The `models` list of `get_loaded_models_info`. */
  function ModelsInfo(loaded: Assoc<string, CacheEntry>, files: seq<FilePath>): seq<ModelStatus> {
    CachedStatuses(loaded) + DiskStatuses(loaded, files)
  }

  /** Position `i` of the cached statuses is the `i`-th cached brand, in memory. */
  lemma {:induction false} CachedStatusesAt(loaded: Assoc<string, CacheEntry>)
    ensures |CachedStatuses(loaded)| == |loaded|
    ensures forall i :: 0 <= i < |loaded| ==> CachedStatuses(loaded)[i] == ModelStatus(loaded[i].0, true)
    decreases |loaded|
  {
    if loaded != [] {
      var init := loaded[..|loaded| - 1];
      CachedStatusesAt(init);
      forall i | 0 <= i < |init| ensures init[i] == loaded[i] { }
    }
  }

  /** Every off-memory status names a brand that is not cached. */
  lemma {:induction false} OffMemoryUncached(loaded: Assoc<string, CacheEntry>, brands: seq<string>)
    ensures forall s :: s in OffMemory(loaded, brands) ==> !s.inMemory && Get(loaded, s.brand).None?
    decreases |brands|
  {
    if brands != [] {
      OffMemoryUncached(loaded, brands[..|brands| - 1]);
    }
  }

  /** Every brand that is not cached has its off-memory status. */
  lemma {:induction false} OffMemoryIncludes(loaded: Assoc<string, CacheEntry>, brands: seq<string>, i: nat)
    requires i < |brands| && Get(loaded, brands[i]).None?
    ensures ModelStatus(brands[i], false) in OffMemory(loaded, brands)
    decreases |brands|
  {
    var n := |brands|;
    var init := brands[..n - 1];
    if i < n - 1 {
      assert init[i] == brands[i];
      OffMemoryIncludes(loaded, init, i);
    }
  }

  /** Every disk status is off-memory and names a brand that is not cached. */
  lemma DiskStatusesUncached(loaded: Assoc<string, CacheEntry>, files: seq<FilePath>)
    ensures forall s :: s in DiskStatuses(loaded, files) ==> !s.inMemory && Get(loaded, s.brand).None?
  {
    OffMemoryUncached(loaded, DiskBrands(files));
  }

  /** A file is reported exactly when its brand is not cached. */
  lemma DiskStatusesComplete(loaded: Assoc<string, CacheEntry>, files: seq<FilePath>, i: nat)
    requires i < |files|
    ensures Get(loaded, DiskBrand(files[i].name)).None? ==> ModelStatus(DiskBrand(files[i].name), false) in DiskStatuses(loaded, files)
    ensures Get(loaded, DiskBrand(files[i].name)).Some? ==> forall s :: s in DiskStatuses(loaded, files) ==> s.brand != DiskBrand(files[i].name)
  {
    DiskStatusesUncached(loaded, files);
    if Get(loaded, DiskBrand(files[i].name)).None? {
      OffMemoryIncludes(loaded, DiskBrands(files), i);
    }
  }

  /** Each cached brand is reported exactly once, in memory, at its cache position. */
  lemma CachedBrandReportedOnce(loaded: Assoc<string, CacheEntry>, files: seq<FilePath>, i: nat)
    requires DistinctKeys(loaded) && i < |loaded|
    ensures var m := ModelsInfo(loaded, files);
            && i < |m| && m[i] == ModelStatus(loaded[i].0, true)
            && forall j :: 0 <= j < |m| && m[j].brand == loaded[i].0 ==> j == i
  {
    var m := ModelsInfo(loaded, files);
    var c, d := CachedStatuses(loaded), DiskStatuses(loaded, files);
    CachedStatusesAt(loaded);
    DiskStatusesUncached(loaded, files);
    GetAt(loaded, i);
    forall j | |c| <= j < |m| ensures m[j].brand != loaded[i].0 {
      assert m[j] == d[j - |c|];
    }
    forall j | 0 <= j < |c| && m[j].brand == loaded[i].0 ensures j == i {
      assert m[j] == c[j];
    }
  }

  /** No `_efficientnet_b3` starts inside `brand`, even one running on into a suffix after it. */
  predicate NoSuffixInside(brand: string) {
    forall i :: 0 <= i < |brand| ==> !IsPrefix(DefaultSuffix, (brand + DefaultSuffix)[i..])
  }

  /** Two files can be reported as the same brand: `Audi.pth` and
      `Audi_efficientnet_b3.pth` both become `Audi`. */
  lemma DiskBrandNotInjective(brand: string)
    requires brand != [] && NoSuffixInside(brand)
    ensures brand + ".pth" != brand + DefaultSuffix + ".pth"
    ensures DiskBrand(brand + ".pth") == DiskBrand(brand + DefaultSuffix + ".pth") == brand
  {
    DiskBrandOfPth(brand, false);
    DiskBrandOfPth(brand, true);
    assert brand + "" == brand;
    assert |brand + ".pth"| < |brand + DefaultSuffix + ".pth"|;
  }

  /** A `<brand>.pth` or `<brand>_efficientnet_b3.pth` file is reported as `<brand>` when no
      `_efficientnet_b3` starts inside the brand (the bare `.pth` needs a non-empty brand). */
  lemma DiskBrandOfPth(brand: string, withSuffix: bool)
    requires withSuffix || brand != []
    requires NoSuffixInside(brand)
    ensures DiskBrand(brand + (if withSuffix then DefaultSuffix else "") + ".pth") == brand
  {
    var stem := brand + (if withSuffix then DefaultSuffix else "");
    StemOfPth(stem);
    if withSuffix {
      RemoveAllTrailing(brand, DefaultSuffix);
    } else {
      assert stem == brand;
      forall i | 0 <= i < |brand| ensures !IsPrefix(DefaultSuffix, brand[i..]) {
        assert !IsPrefix(DefaultSuffix, (brand + DefaultSuffix)[i..]);
        if i + |DefaultSuffix| <= |brand| {
          assert (brand + DefaultSuffix)[i..][..|DefaultSuffix|] == brand[i..][..|DefaultSuffix|];
        }
      }
      RemoveAllUntouched(brand, DefaultSuffix);
    }
  }

  /** The one `_` of `Land_Rover` does not start `_efficientnet_b3`. */
  lemma LandRoverNoSuffixInside()
    ensures NoSuffixInside("Land_Rover")
  {
    var brand := "Land_Rover";
    forall i | 0 <= i < |brand| ensures !IsPrefix(DefaultSuffix, (brand + DefaultSuffix)[i..]) {
      var t := (brand + DefaultSuffix)[i..];
      if i == 4 {
        assert t[1] == 'R' != DefaultSuffix[1];
      } else {
        assert t[0] != '_' == DefaultSuffix[0];
      }
    }
  }

  /** A cached brand that normalisation changes is listed twice: once in memory under its
      raw name and once off memory under the name of its own file. */
  lemma CachedBrandListedTwice(raw: string, entry: CacheEntry, dir: string)
    requires NormalizeBrandName(raw) != raw && NoSuffixInside(NormalizeBrandName(raw))
    ensures var file := FilePath(dir, NormalizeBrandName(raw) + DefaultSuffix + ".pth");
            ModelsInfo([(raw, entry)], [file]) == [ModelStatus(raw, true), ModelStatus(NormalizeBrandName(raw), false)]
  {
    var brand := NormalizeBrandName(raw);
    var loaded: Assoc<string, CacheEntry> := [(raw, entry)];
    var files := [FilePath(dir, brand + DefaultSuffix + ".pth")];
    DiskBrandOfPth(brand, true);
    assert DiskBrands(files) == [brand];
    assert loaded[..0] == [] && [brand][..0] == [];
    assert CachedStatuses(loaded) == [ModelStatus(raw, true)];
    assert Get(loaded, brand).None? by { assert loaded[1..] == []; }
    assert OffMemory(loaded, [brand]) == [ModelStatus(brand, false)];
  }

  /** `Land Rover`, cached, is listed again as `Land_Rover` from
      `Land_Rover_efficientnet_b3.pth`. */
  lemma LandRoverListedTwice(raw: string, entry: CacheEntry, dir: string)
    requires raw == "Land Rover"
    ensures NormalizeBrandName(raw) == "Land_Rover"
    ensures var file := FilePath(dir, NormalizeBrandName(raw) + DefaultSuffix + ".pth");
            ModelsInfo([(raw, entry)], [file]) == [ModelStatus(raw, true), ModelStatus("Land_Rover", false)]
  {
    NormalizeBrandNameShape(raw);
    assert NormalizeBrandName(raw) == "Land_Rover";
    assert raw[4] != NormalizeBrandName(raw)[4];
    LandRoverNoSuffixInside();
    CachedBrandListedTwice(raw, entry, dir);
  }

  /** The loop of `predict` over the `topk` pairs: rank from 1, the looked-up model name,
      and `"<brand> <model>"`. */
  method FormatPredictions(brand: string, idxToModel: Assoc<Key, string>, top: seq<(nat, real)>) returns (predictions: seq<ModelPrediction>)
    requires top != [] ==> |idxToModel| > 0
    ensures |predictions| == |top|
    ensures forall i :: 0 <= i < |top| ==>
              predictions[i] == ModelPrediction(i + 1, brand, ModelLabel(idxToModel, top[i].0),
                                                brand + " " + ModelLabel(idxToModel, top[i].0), top[i].1)
  {
    predictions := [];
    var i := 0;
    while i < |top|
      invariant 0 <= i <= |top|
      invariant |predictions| == i
      invariant forall j :: 0 <= j < i ==>
                  predictions[j] == ModelPrediction(j + 1, brand, ModelLabel(idxToModel, top[j].0),
                                                    brand + " " + ModelLabel(idxToModel, top[j].0), top[j].1)
    {
      var classIdx := top[i].0;
      var prob := top[i].1;
      var modelName := Label(idxToModel, LookupKey(idxToModel, classIdx), classIdx);
      predictions := predictions + [ModelPrediction(i + 1, brand, modelName, brand + " " + modelName, prob)];
      i := i + 1;
    }
  }

  class CarModelClassifier {
    const settings: Settings
    const modelsDir: string
    const disk: Disk
    var loadedModels: Assoc<string, CacheEntry>

    predicate Valid()
      reads this, disk
    {
      disk.Valid() && DistinctKeys(loadedModels)
    }

    /** `__init__`: the models directory (the given one, else the configured one) is
        made, and the cache starts empty. */
    constructor (settings: Settings, modelsDir: Option<string>, disk: Disk)
      requires disk.Valid()
      modifies disk
      ensures Valid()
      ensures this.settings == settings && this.modelsDir == modelsDir.GetOr(settings.modelsDir) && this.disk == disk
      ensures loadedModels == []
      ensures disk.dirs == WithDirectory(old(disk.dirs), modelsDir.GetOr(settings.modelsDir))
    {
      this.settings := settings;
      this.modelsDir := modelsDir.GetOr(settings.modelsDir);
      this.disk := disk;
      loadedModels := [];
      new;
      disk.EnsureDirectory(this.modelsDir);
    }

    /** `_get_model_path`: in the legacy directory, if it exists, the first match of the
        first of the three patterns that matches anything; otherwise
        `models_dir/<brand>_efficientnet_b3.pth`. The brand is normalised first. */
    function GetModelPath(brand: string): (p: FilePath)
      reads disk
      ensures p == FilePath(modelsDir, NormalizeBrandName(brand) + DefaultSuffix + ".pth") ||
              (p.dir == LegacyDir(settings.baseDir) && disk.Exists(p))
      ensures !disk.DirExists(LegacyDir(settings.baseDir)) ==> p == FilePath(modelsDir, NormalizeBrandName(brand) + DefaultSuffix + ".pth")
    {
      var b := NormalizeBrandName(brand);
      var legacy := LegacyDir(settings.baseDir);
      if disk.DirExists(legacy) && disk.Glob(legacy, AccPattern(b)) != [] then disk.Glob(legacy, AccPattern(b))[0]
      else if disk.DirExists(legacy) && disk.Glob(legacy, PlainPattern(b)) != [] then disk.Glob(legacy, PlainPattern(b))[0]
      else if disk.DirExists(legacy) && disk.Glob(legacy, AnyPattern(b)) != [] then disk.Glob(legacy, AnyPattern(b))[0]
      else FilePath(modelsDir, b + DefaultSuffix + ".pth")
    }

    /** `_download_brand_model`: nothing to do when the file is there; no URL for the
        (raw) brand fails; otherwise the download decides. */
    method DownloadBrandModel(brand: string, transfer: Transfer) returns (ok: bool)
      requires Valid()
      modifies disk
      ensures Valid()
      ensures var path, url := old(GetModelPath(brand)), GetBrandModelUrl(settings, brand);
              if old(disk.Exists(path)) then ok && disk.dirs == old(disk.dirs)
              else if url.None? then !ok && disk.dirs == old(disk.dirs)
              else && disk.dirs == DownloadEffect(old(disk.dirs), url.value, path, transfer)
                   && (ok <==> !UrlUnconfigured(url.value) && !transfer.raises && disk.Exists(path))
    {
      var path := GetModelPath(brand);
      if disk.Exists(path) {
        return true;
      }
      var url := GetBrandModelUrl(settings, brand);
      if url.None? {
        return false;
      }
      ok := DownloadFromDrive(disk, url.value, path, transfer);
    }

    /** `_load_brand_model`. A cached brand is returned as it is, touching nothing. Otherwise
        the file is fetched when missing (a failed fetch raises), read, and turned into an
        entry; only a successful load is cached. */
    method LoadBrandModel(brand: string, transfer: Transfer, restOk: bool) returns (r: Result<CacheEntry>)
      requires Valid()
      modifies this, disk
      ensures Valid()
      ensures Get(old(loadedModels), brand).Some? ==>
                r == Ok(Get(old(loadedModels), brand).value) && loadedModels == old(loadedModels) && disk.dirs == old(disk.dirs)
      ensures r.Err? ==> loadedModels == old(loadedModels)
      ensures Get(old(loadedModels), brand).None? && r.Ok? ==> loadedModels == Put(old(loadedModels), brand, r.value)
      ensures Get(old(loadedModels), brand).None? && r.Ok? ==>
                var node := disk.Lookup(old(GetModelPath(brand)));
                node.Some? && node.value.RegularFile? && node.value.content.Saved? &&
                r == LoadEntry(brand, node.value.content.checkpoint, restOk)
      ensures old(disk.Exists(GetModelPath(brand))) ==> disk.dirs == old(disk.dirs)
      ensures (Get(old(loadedModels), brand).None? && !old(disk.Exists(GetModelPath(brand))) &&
               GetBrandModelUrl(settings, brand).None?) ==> r == Err(ModelUnavailable(brand)) && disk.dirs == old(disk.dirs)
      ensures Get(old(loadedModels), brand).None? ==>
                var path, url := old(GetModelPath(brand)), GetBrandModelUrl(settings, brand);
                var present := old(disk.Exists(path)) || (url.Some? && !UrlUnconfigured(url.value) && !transfer.raises && disk.Exists(path));
                && (!old(disk.Exists(path)) && url.Some? ==> disk.dirs == DownloadEffect(old(disk.dirs), url.value, path, transfer))
                && (!present ==> r == Err(ModelUnavailable(brand)))
                && (present ==> r == ReadEntry(brand, disk.Lookup(path), restOk))
    {
      var cached := Get(loadedModels, brand);
      if cached.Some? {
        return Ok(cached.value);
      }
      var path := GetModelPath(brand);
      if !disk.Exists(path) {
        var ok := DownloadBrandModel(brand, transfer);
        if !ok {
          return Err(ModelUnavailable(brand));
        }
      }
      r := ReadEntry(brand, disk.Lookup(path), restOk);
      if r.Ok? {
        PutDistinct(loadedModels, brand, r.value);
        loadedModels := Put(loadedModels, brand, r.value);
      }
    }

    /** `predict` after the brand's network has produced `ranking`. Every failure, from the
        load or from `topk`, is returned as `success: False`; nothing is raised. On
        success there are `min(top_k, len(idx_to_model))` predictions, ranked from 1, for
        the caller's brand. */
    method Predict(brand: string, topK: int, transfer: Transfer, restOk: bool, ranking: seq<(nat, real)>) returns (resp: PredictResponse)
      requires Valid()
      modifies this, disk
      ensures Valid()
      ensures Get(old(loadedModels), brand).Some? ==> loadedModels == old(loadedModels) && disk.dirs == old(disk.dirs)
      ensures forall b :: b != brand ==> Get(loadedModels, b) == Get(old(loadedModels), b)
      ensures Get(loadedModels, brand).None? ==> resp.PredictFailure?
      ensures Get(old(loadedModels), brand).None? ==>
                var path, url := old(GetModelPath(brand)), GetBrandModelUrl(settings, brand);
                var present := old(disk.Exists(path)) || (url.Some? && !UrlUnconfigured(url.value) && !transfer.raises && disk.Exists(path));
                var load := if present then ReadEntry(brand, disk.Lookup(path), restOk) else Err(ModelUnavailable(brand));
                && (!old(disk.Exists(path)) && url.Some? ==> disk.dirs == DownloadEffect(old(disk.dirs), url.value, path, transfer))
                && (old(disk.Exists(path)) || url.None? ==> disk.dirs == old(disk.dirs))
                && (load.Err? ==> resp == PredictFailure(load.fault) && loadedModels == old(loadedModels))
                && (load.Ok? ==> loadedModels == Put(old(loadedModels), brand, load.value))
      ensures Get(loadedModels, brand).Some? ==>
                var entry := Get(loadedModels, brand).value;
                var k := Min(topK, |entry.idxToModel|);
                && (resp.PredictSuccess? <==> 0 <= k <= |ranking|)
                && (resp.PredictFailure? ==> resp.fault == TopKOutOfRange(k))
                && (resp.PredictSuccess? ==>
                      && resp.brand == brand
                      && resp.accuracy == entry.modelInfo.bestValAcc
                      && resp.totalClasses == entry.modelInfo.numClasses
                      && |resp.predictions| == k
                      && forall i :: 0 <= i < k ==>
                           resp.predictions[i] == ModelPrediction(i + 1, brand, ModelLabel(entry.idxToModel, ranking[i].0),
                                                                  brand + " " + ModelLabel(entry.idxToModel, ranking[i].0), ranking[i].1))
    {
      var load := LoadBrandModel(brand, transfer, restOk);
      if load.Err? {
        return PredictFailure(load.fault);
      }
      var entry := load.value;
      if Get(old(loadedModels), brand).None? {
        assert Get(loadedModels, brand) == Some(entry);
      }
      var idxToModel := entry.idxToModel;
      var k := Min(topK, |idxToModel|);
      var top := TopK(ranking, k);
      if top.Err? {
        return PredictFailure(top.fault);
      }
      var predictions := FormatPredictions(brand, idxToModel, top.value);
      resp := PredictSuccess(predictions, brand, entry.modelInfo.bestValAcc, entry.modelInfo.numClasses);
    }

    /** `cleanup_brand_model`: the brand leaves the cache, and the regular file at its
        path is deleted; the result says whether either happened. */
    method CleanupBrandModel(brand: string) returns (removed: bool)
      requires Valid()
      modifies this, disk
      ensures Valid()
      ensures loadedModels == Remove(old(loadedModels), brand)
      ensures Get(loadedModels, brand).None?
      ensures removed <==> Get(old(loadedModels), brand).Some? || old(disk.IsFile(GetModelPath(brand)))
      ensures var p := old(GetModelPath(brand));
              disk.dirs == if old(disk.IsFile(p)) then old(disk.dirs)[p.dir := RemoveEntry(old(disk.dirs[p.dir]), p.name)] else old(disk.dirs)
    {
      removed := false;
      if Get(loadedModels, brand).Some? {
        RemoveDistinct(loadedModels, brand);
        loadedModels := Remove(loadedModels, brand);
        removed := true;
      }
      var path := GetModelPath(brand);
      var deleted := disk.DeleteFile(path);
      if deleted {
        removed := true;
      }
    }

    /** `cleanup_all_models`: every cached brand is dropped, then every regular `*.pth` file
        directly in `models_dir` is deleted; the legacy directory is not touched. */
    method CleanupAllModels() returns (counts: CleanupCounts)
      requires Valid()
      modifies this, disk
      ensures Valid()
      ensures loadedModels == []
      ensures counts.removedFromCache == |old(loadedModels)|
      ensures modelsDir !in old(disk.dirs) ==> counts.removedFromDisk == 0 && disk.dirs == old(disk.dirs)
      ensures modelsDir in old(disk.dirs) ==>
                && counts.removedFromDisk == ClearedCount(old(disk.dirs[modelsDir]), "*.pth")
                && disk.dirs == old(disk.dirs)[modelsDir := Survivors(old(disk.dirs[modelsDir]), "*.pth")]
    {
      var brandsInCache := Keys(loadedModels);
      ghost var before := loadedModels;
      var i := 0;
      while i < |brandsInCache|
        invariant 0 <= i <= |brandsInCache| == |before|
        invariant loadedModels == before[i..]
        invariant DistinctKeys(loadedModels)
        invariant disk.Valid() && disk.dirs == old(disk.dirs)
      {
        assert loadedModels[0] == before[i];
        if Get(loadedModels, brandsInCache[i]).Some? {
          RemoveFirst(loadedModels);
          loadedModels := Remove(loadedModels, brandsInCache[i]);
        }
        assert loadedModels == before[i + 1..];
        i := i + 1;
      }
      var removedFromDisk := disk.ClearDirectory(modelsDir, "*.pth");
      counts := CleanupCounts(|brandsInCache|, removedFromDisk);
    }

    /** `get_loaded_models_info`: the cached brands (in memory), then the `.pth` files of
        `models_dir` whose reported brand is not cached; the totals count the cache and
        every listed file. */
    method GetLoadedModelsInfo() returns (info: LoadedModelsInfo)
      requires Valid()
      ensures info.models == ModelsInfo(loadedModels, disk.ListFilesByExtension(modelsDir, ".pth"))
      ensures info.totalInMemory == |loadedModels|
      ensures info.totalOnDisk == |disk.ListFilesByExtension(modelsDir, ".pth")|
    {
      var models: seq<ModelStatus> := [];
      var i := 0;
      while i < |loadedModels|
        invariant 0 <= i <= |loadedModels|
        invariant models == CachedStatuses(loadedModels[..i])
      {
        CachedStatusesSnoc(loadedModels, i);
        models := models + [ModelStatus(loadedModels[i].0, true)];
        i := i + 1;
      }
      assert loadedModels[..i] == loadedModels;
      var diskModels := disk.ListFilesByExtension(modelsDir, ".pth");
      var onDisk := UncachedStatuses(loadedModels, diskModels);
      models := models + onDisk;
      info := LoadedModelsInfo(|loadedModels|, |diskModels|, models);
    }
  }

  /** With no legacy directory, the path is the default file in `models_dir`. */
  lemma ModelPathFallback(c: CarModelClassifier, brand: string)
    requires !c.disk.DirExists(LegacyDir(c.settings.baseDir))
    ensures c.GetModelPath(brand) == FilePath(c.modelsDir, NormalizeBrandName(brand) + DefaultSuffix + ".pth")
  {
  }

  /** A `<brand>_model_acc_*.pth` file in the legacy directory wins over the other
      patterns: the path is in the legacy directory and carries that prefix and suffix. */
  lemma ModelPathPrefersAccuracyFile(c: CarModelClassifier, brand: string, name: string)
    requires Literal(NormalizeBrandName(brand))
    requires var legacy := LegacyDir(c.settings.baseDir);
             legacy in c.disk.dirs && Listed(c.disk.dirs[legacy], name)
    requires IsPrefix(NormalizeBrandName(brand) + "_model_acc_", name) && IsSuffix(".pth", name)
    requires |name| >= |NormalizeBrandName(brand) + "_model_acc_"| + |".pth"|
    ensures var p := c.GetModelPath(brand);
            && p.dir == LegacyDir(c.settings.baseDir)
            && IsPrefix(NormalizeBrandName(brand) + "_model_acc_", p.name) && IsSuffix(".pth", p.name)
  {
    var b := NormalizeBrandName(brand);
    var legacy := LegacyDir(c.settings.baseDir);
    var pre := b + "_model_acc_";
    AccPatternMatches(b, name);
    GlobInComplete(legacy, c.disk.dirs[legacy], AccPattern(b), name);
    var found := c.disk.Glob(legacy, AccPattern(b));
    assert found != [] && found[0] in found;
    assert c.GetModelPath(brand) == found[0];
    AccPatternMatches(b, found[0].name);
  }

  /** The disk loop of `get_loaded_models_info`: one off-memory status per file whose
      reported brand is not cached. */
  method UncachedStatuses(loaded: Assoc<string, CacheEntry>, files: seq<FilePath>) returns (models: seq<ModelStatus>)
    ensures models == DiskStatuses(loaded, files)
  {
    models := [];
    var j := 0;
    while j < |files|
      invariant 0 <= j <= |files|
      invariant models == OffMemory(loaded, DiskBrands(files[..j]))
    {
      DiskBrandsSnoc(files, j);
      var brand := RemoveAll(Stem(files[j].name), DefaultSuffix);
      OffMemorySnoc(loaded, DiskBrands(files[..j]), brand);
      if Get(loaded, brand).None? {
        models := models + [ModelStatus(brand, false)];
      }
      j := j + 1;
    }
    assert files[..j] == files;
  }

  /** One more cached brand adds its status. */
  lemma CachedStatusesSnoc(loaded: Assoc<string, CacheEntry>, i: nat)
    requires i < |loaded|
    ensures CachedStatuses(loaded[..i + 1]) == CachedStatuses(loaded[..i]) + [ModelStatus(loaded[i].0, true)]
  {
    assert loaded[..i + 1][..i] == loaded[..i];
  }

  /** One more file adds its reported brand. */
  lemma DiskBrandsSnoc(files: seq<FilePath>, j: nat)
    requires j < |files|
    ensures DiskBrands(files[..j + 1]) == DiskBrands(files[..j]) + [DiskBrand(files[j].name)]
  {
    var a, b := DiskBrands(files[..j + 1]), DiskBrands(files[..j]) + [DiskBrand(files[j].name)];
    forall k | 0 <= k <= j ensures a[k] == b[k] {
      assert files[..j + 1][k] == files[k];
      if k < j {
        assert files[..j][k] == files[k];
      }
    }
  }

  /** One more brand adds its status when it is not cached. */
  lemma OffMemorySnoc(loaded: Assoc<string, CacheEntry>, brands: seq<string>, brand: string)
    ensures OffMemory(loaded, brands + [brand]) ==
              OffMemory(loaded, brands) + (if Get(loaded, brand).None? then [ModelStatus(brand, false)] else [])
  {
    assert (brands + [brand])[..|brands|] == brands;
    assert OffMemory(loaded, brands) + [] == OffMemory(loaded, brands);
  }

  /** The accuracy pattern matches the names with its prefix and suffix. */
  lemma AccPatternMatches(b: string, name: string)
    requires Literal(b)
    ensures Match(AccPattern(b), name) <==>
              |name| >= |b + "_model_acc_"| + |".pth"| && IsPrefix(b + "_model_acc_", name) && IsSuffix(".pth", name)
  {
    var pre := b + "_model_acc_";
    assert Literal(pre) by {
      assert '*' !in "_model_acc_" && '?' !in "_model_acc_";
    }
    MatchPrefixStarSuffix(pre, ".pth", name);
  }

  /** Without an accuracy-named file, an exact `<brand>_model.pth` in the legacy
      directory is the path. */
  lemma ModelPathPlainFile(c: CarModelClassifier, brand: string)
    requires Literal(NormalizeBrandName(brand))
    requires var legacy := LegacyDir(c.settings.baseDir);
             legacy in c.disk.dirs && Listed(c.disk.dirs[legacy], NormalizeBrandName(brand) + "_model.pth")
    requires c.disk.Glob(LegacyDir(c.settings.baseDir), AccPattern(NormalizeBrandName(brand))) == []
    ensures c.GetModelPath(brand) == FilePath(LegacyDir(c.settings.baseDir), NormalizeBrandName(brand) + "_model.pth")
  {
    var b := NormalizeBrandName(brand);
    var legacy := LegacyDir(c.settings.baseDir);
    var name := b + "_model.pth";
    PlainPatternMatches(b, name);
    GlobInComplete(legacy, c.disk.dirs[legacy], PlainPattern(b), name);
    var found := c.disk.Glob(legacy, PlainPattern(b));
    assert found != [] && found[0] in found;
    assert c.GetModelPath(brand) == found[0];
    PlainPatternMatches(b, found[0].name);
  }

  /** The plain pattern has no wildcard: it matches only itself. */
  lemma PlainPatternMatches(b: string, name: string)
    requires Literal(b)
    ensures Match(PlainPattern(b), name) <==> name == b + "_model.pth"
  {
    var lit := PlainPattern(b);
    assert Literal(lit) by {
      assert '*' !in "_model.pth" && '?' !in "_model.pth";
    }
    MatchLiteral(lit, name);
  }

  /** Without an accuracy-named or exact file, any other `<brand>_*.pth` file in the
      legacy directory is the path. */
  lemma ModelPathAnyFile(c: CarModelClassifier, brand: string, name: string)
    requires Literal(NormalizeBrandName(brand))
    requires var legacy := LegacyDir(c.settings.baseDir);
             legacy in c.disk.dirs && Listed(c.disk.dirs[legacy], name)
    requires c.disk.Glob(LegacyDir(c.settings.baseDir), AccPattern(NormalizeBrandName(brand))) == []
    requires c.disk.Glob(LegacyDir(c.settings.baseDir), PlainPattern(NormalizeBrandName(brand))) == []
    requires IsPrefix(NormalizeBrandName(brand) + "_", name) && IsSuffix(".pth", name)
    requires |name| >= |NormalizeBrandName(brand) + "_"| + |".pth"|
    ensures var p := c.GetModelPath(brand);
            && p.dir == LegacyDir(c.settings.baseDir)
            && IsPrefix(NormalizeBrandName(brand) + "_", p.name) && IsSuffix(".pth", p.name)
  {
    var b := NormalizeBrandName(brand);
    var legacy := LegacyDir(c.settings.baseDir);
    AnyPatternMatches(b, name);
    GlobInComplete(legacy, c.disk.dirs[legacy], AnyPattern(b), name);
    var found := c.disk.Glob(legacy, AnyPattern(b));
    assert found != [] && found[0] in found;
    assert c.GetModelPath(brand) == found[0];
    AnyPatternMatches(b, found[0].name);
  }

  /** The catch-all pattern matches the names with its prefix and suffix. */
  lemma AnyPatternMatches(b: string, name: string)
    requires Literal(b)
    ensures Match(AnyPattern(b), name) <==>
              |name| >= |b + "_"| + |".pth"| && IsPrefix(b + "_", name) && IsSuffix(".pth", name)
  {
    var pre := b + "_";
    assert Literal(pre) by {
      assert '*' !in "_" && '?' !in "_";
    }
    MatchPrefixStarSuffix(pre, ".pth", name);
  }
}
