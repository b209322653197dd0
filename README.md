# Two-stage car classifier: the bookkeeping around the networks

A Dafny model of the Python service Guilherme0321/car_mordel_classify. The service
classifies a photo of a car in two stages. A brand network (`BrandClassifier`) picks the
brand. A per-brand network (`CarModelClassifier`) picks the model within that brand. A
stand-alone service in `main.py` does both at once with one network over 742
`brand_model` classes.

The model covers what surrounds the networks:

- the checkpoint files and where they are looked for;
- downloads from Google Drive, and the configuration they take their ids from;
- reading the network shape from a checkpoint and rebuilding the classifier head;
- the in-memory cache of per-brand networks and its cleanup and status report;
- the formatting of the top-k predictions;
- the request validators.

The networks themselves are inputs to the model:

- The ranked output of a forward pass is a sequence of `(class index, probability)` pairs.
- The outcome of the strict weight load on the tensors the model does not track is a
  boolean, `restOk`.
- What `gdown.download` did is a `Transfer` value: the file it wrote, if any, and whether
  it raised.

Modules, one per file:

| file | module | models |
|---|---|---|
| `outcomes.dfy` | `Outcomes` | `Option`, `Result`, and the exceptions of the modelled paths as `Fault` |
| `text.dfy` | `Text` | the `str` operations used: `in`, `split`, `strip`, `replace`, `str(int)`, `rfind` |
| `ordered_dict.dfy` | `OrderedDict` | Python dicts whose order matters, as association lists |
| `glob.dfy` | `Glob` | `pathlib` glob matching with `*` and `?` |
| `checkpoint.dfy` | `Checkpoints` | what `torch.load` returns: the keys the code reads, and tensors as shapes |
| `network_builder.dfy` | `NetworkBuilder` | `_create_model_architecture` and the shape part of `load_state_dict(strict=True)` |
| `inspector.dfy` | `Inspector` | `_detect_model_architecture`, `_detect_classifier_hidden_size`, detect-build-load |
| `file_utils.dfy` | `FileUtils` | the file system as a class `Disk`, and `FileUtils` |
| `config.dfy` | `Config` | `Settings`: environment defaults, `get_brand_model_ids_map`, `validate` |
| `image_processor.dfy` | `ImageProcessor` | `validate_image_type`, `validate_image_size` |
| `downloader.dfy` | `Downloader` | `ModelDownloader` |
| `predictions.dfy` | `Predictions` | `torch.topk` as a prefix, labels of class indices |
| `brand_classifier.dfy` | `BrandClassifiers` | `BrandClassifier` (stage 1) |
| `car_model_classifier.dfy` | `CarModelClassifiers` | `CarModelClassifier` (stage 2) |
| `main_model.dfy` | `CarApi` | `CarClassificationModel` and the `/predict` request checks of `main.py` |

How the code is modelled:

- **Objects whose fields change are classes.** `Disk` holds `dirs`, a map from directory
  path to its listing in directory order; that order is the order `glob` yields. All three
  classifiers are classes too, and their methods state the whole new state.
- **`loaded_models` and the class tables are association lists** (`Assoc`), so their
  insertion order is kept. That order matters:
  - `predict` picks string or integer keys from the type of the FIRST key of
    `idx_to_model`;
  - `get_loaded_models_info` reports the cache in its order.
- **An exception that escapes an operation becomes `Err(fault)`.**

## Behaviour of the code worth knowing

- **Loading is not single-flight.** `_load_brand_model`
  (app/services/car_model_classifier.py:212-274) checks the dict, loads and inserts. It
  has no lock and no loading state. The model is sequential, and an entry is either
  absent or loaded.
- **Architecture detection can raise.** Both `_detect_model_architecture` and
  `_detect_classifier_hidden_size` read `shape[0]`
  (app/services/car_model_classifier.py:133-157, app/services/brand_classifier.py:114-138).
  A zero-dimensional tensor there raises `IndexError`. `DetectModelArchitecture` and
  `DetectClassifierHiddenSize` return `Err(ZeroDimShape(..))` in that case.
- **One failure fails the whole answer.** Any exception inside the stage-2 `predict`
  (app/services/car_model_classifier.py:345-350) or `main.py`'s `predict` (main.py:207-212)
  turns the whole response into `success: False`. The stage-1 `predict` logs and re-raises
  (app/services/brand_classifier.py:235-237).
- **There are two placeholders.** `main.py` rejects URLs holding `SEU_FILE_ID_AQUI`
  (main.py:70). `Settings.validate` and the downloader reject any URL holding the shorter
  `SEU_FILE_ID` (app/core/config.py:81, app/utils/downloader.py:34).
  `DriveUrlRejectedIsUnconfigured` and `ShortPlaceholderAccepted` relate the two.
- **A cached multi-word brand is listed twice.** `get_loaded_models_info` lists each cached
  brand under the name the caller passed (app/services/car_model_classifier.py:418-423). It
  then lists each file under its stem with `_efficientnet_b3` removed (line 430). That stem
  is the normalised name, so a cached `Land Rover` comes back a second time, off memory, as
  `Land_Rover`. `CachedBrandListedTwice` and `LandRoverListedTwice` state this.

## Model

| member | source | states |
|---|---|---|
| Text.SplitFirst | app/core/config.py:67 | `split(':', 1)`: the two parts rejoin around the first `:` to the entry, and the first part holds no `:` |
| Text.Split | app/core/config.py:65 | `split(',')` is never empty and no part holds a comma |
| Text.SplitJoin | app/core/config.py:65 | joining the comma-split parts with `,` gives the setting back |
| Text.StripShape | app/core/config.py:67-68 | `strip()` removes exactly the leading and trailing white space, and its result neither starts nor ends with white space |
| Text.StripTrimmed | app/core/config.py:68 | a string that neither starts nor ends with white space is its own strip |
| Text.ContainsLonger | main.py:70 | a string containing `a + b` contains `a` |
| Text.NatToStringInjective | app/services/car_model_classifier.py:317 | `str(class_idx)` differs for different indices |
| Text.RemoveAllTrailing | app/services/car_model_classifier.py:430 | `replace('_efficientnet_b3', '')` removes exactly the trailing occurrence when no other occurrence starts before it |
| Text.RemoveAllUntouched | app/services/car_model_classifier.py:430 | `replace` leaves a string in which the pattern starts nowhere unchanged |
| OrderedDict.Put | app/services/car_model_classifier.py:260 | `d[k] = v`: `k` finds `v`, every other key finds what it found, and the key order is kept, or `k` is appended |
| OrderedDict.PutDistinct | app/services/car_model_classifier.py:260 | assignment keeps the keys distinct |
| OrderedDict.Remove | app/services/car_model_classifier.py:367 | `del d[k]`: `k` finds nothing, other keys are unaffected, no pair is invented, and an absent key changes nothing |
| OrderedDict.RemoveDistinct | app/services/car_model_classifier.py:367 | deletion keeps the keys distinct and shortens the dict by one when the key was present |
| OrderedDict.RemoveFirst | app/services/car_model_classifier.py:391-394 | deleting the first key of the snapshot leaves the remaining pairs in order |
| OrderedDict.Invert | app/services/brand_classifier.py:69 | `{idx: cls for cls, idx in ...}` has distinct keys |
| OrderedDict.InvertHas | app/services/brand_classifier.py:69 | the inversion has an entry for `idx` exactly when some class was given `idx` |
| OrderedDict.InvertGet | app/services/brand_classifier.py:69 | the inversion maps `idx` to the LAST class given `idx` |
| OrderedDict.PutAbsent | app/services/brand_classifier.py:69 | assigning an absent key appends its pair at the end |
| OrderedDict.InvertFreshLast | app/services/brand_classifier.py:69 | a last class whose index no earlier class holds is appended, turned round, to the inversion |
| OrderedDict.InvertSwaps | app/services/brand_classifier.py:69 | with no index shared by two classes, the inversion is exactly the table with every pair turned round, in its order |
| OrderedDict.InvertInjective | app/services/brand_classifier.py:69 | with no shared index, each index maps back to its own class, and the inversion has one entry per class in the table's order |
| OrderedDict.InvertFirstKey | app/services/car_model_classifier.py:242 | the first key of an inverted table is the index of the first class, which decides the lookup key type |
| Glob.MatchLiteral | app/services/car_model_classifier.py:71 | a pattern without wildcards matches exactly itself |
| Glob.MatchStarLiteral | app/utils/file_utils.py:79 | `*<ext>` matches exactly the names ending in `<ext>` |
| Glob.MatchPrefixStarSuffix | app/services/car_model_classifier.py:70 | `pre*suf` matches the names that start with `pre`, end with `suf` and are long enough for both |
| NetworkBuilder.BackboneFor | app/services/car_model_classifier.py:178-184 | a known architecture name selects its backbone; any other name selects the fallback |
| NetworkBuilder.CreateModelArchitecture | app/services/car_model_classifier.py:178-197 | six head layers; layer 1 maps backbone features to the hidden width, layer 5 maps the hidden width to the classes |
| NetworkBuilder.ParamNameInjective | app/services/car_model_classifier.py:156 | parameter names `classifier.<i>.<p>` of different layers or parameters differ |
| NetworkBuilder.HeadShapes | app/services/car_model_classifier.py:190-197 | the built network expects `classifier.1.weight` as `[hidden, features]`, `classifier.5.weight` as `[classes, hidden]`, and the backbone's feature shape |
| NetworkBuilder.StrictLoadFixesHead | app/services/car_model_classifier.py:255 | a strict load succeeds only with state-dict tensors of exactly those shapes |
| Inspector.HiddenTensorIsHeadWeight | app/services/car_model_classifier.py:156 | the tensor the hidden width is read from is the weight of head layer 1 |
| Inspector.DetectModelArchitecture | app/services/car_model_classifier.py:122-140 | an explicit tag wins; otherwise the result is b0, b3 or the fallback; it fails exactly on a zero-dimensional feature tensor |
| Inspector.DetectByLeadingDimension | app/services/car_model_classifier.py:131-140 | without a tag, 1280 gives b0, 1536 gives b3, and any other width or a missing tensor gives the fallback |
| Inspector.DetectClassifierHiddenSize | app/services/car_model_classifier.py:152-163 | the leading dimension of `classifier.1.weight` when present, else 512; it fails exactly on a zero-dimensional tensor |
| Inspector.BuildNetwork | app/services/car_model_classifier.py:245-252 | succeeds exactly when both detections do, and builds from their results with `num_classes` defaulting to 0 |
| Inspector.BuildAndLoad | app/services/car_model_classifier.py:245-255 | success implies a present state dict that loads strictly; a detection failure is passed on |
| Inspector.DetectRoundTrip | app/services/car_model_classifier.py:122-163 | an untagged checkpoint saved from a network this code builds is detected as that network and loads again, whatever the fallback |
| Inspector.TagOverridesShapes | app/services/car_model_classifier.py:123-124 | a `b3` tag wins over b0 tensors, and the strict load then fails |
| FileUtils.RemoveEntryListed | app/utils/file_utils.py:57 | unlinking removes exactly that name from the listing |
| FileUtils.SurvivorsPartition | app/utils/file_utils.py:108-111 | the entries left are exactly those that are not matching regular files, and kept plus deleted is the whole listing |
| FileUtils.ClearStep | app/utils/file_utils.py:108-111 | one loop step unlinks and counts a matching regular file and leaves anything else |
| FileUtils.GlobIn | app/services/car_model_classifier.py:74 | every glob result is a listed name in the directory that matches the pattern |
| FileUtils.GlobInComplete | app/services/car_model_classifier.py:74 | every listed name that matches is a glob result |
| FileUtils.WithDirectory | app/utils/file_utils.py:27 | `mkdir(parents=True, exist_ok=True)` adds the directory and keeps every existing listing |
| FileUtils.WithFile | app/utils/downloader.py:42 | writing a file touches only its directory |
| FileUtils.Disk.Glob | app/services/car_model_classifier.py:74 | a missing directory globs to nothing; every result exists and matches |
| FileUtils.Disk.ListFilesByExtension | app/utils/file_utils.py:77-79 | a missing directory gives an empty list |
| FileUtils.ListFilesByExtensionExact | app/utils/file_utils.py:77-79 | lists exactly the existing entries of the directory whose names end with the extension |
| FileUtils.Disk.EnsureDirectory | app/utils/file_utils.py:27 | the directory exists afterwards, and every other listing is unchanged |
| FileUtils.Disk.WriteFile | app/utils/downloader.py:42 | the path holds the written content afterwards |
| FileUtils.Disk.DeleteFile | app/utils/file_utils.py:55-63 | true exactly when a regular file was there; the file is gone afterwards; otherwise nothing changes |
| FileUtils.Disk.ClearDirectory | app/utils/file_utils.py:106-116 | returns the number of matching regular files; exactly those are removed, and non-matching files and sub-directories stay in order |
| FileUtils.NormalizeBrandNameShape | app/utils/file_utils.py:92 | same length, no space, `-` or `/`, and every other character unchanged |
| FileUtils.NormalizeBrandNameIdempotent | app/utils/file_utils.py:92 | normalising twice is normalising once |
| FileUtils.NormalizeBrandNameNotInjective | app/utils/file_utils.py:92 | `"A B"` and `"A-B"` both normalise to `"A_B"` |
| FileUtils.Stem | app/services/car_model_classifier.py:430 | `stem` is a prefix of the file name |
| FileUtils.StemOfPth | app/services/car_model_classifier.py:430 | the stem of `<s>.pth` is `<s>`, unless `s` is empty |
| FileUtils.PathOf | app/services/brand_classifier.py:32 | `Path(p)` as a directory and a name: the name holds no `/`, and with a `/` in `p` the two rejoin to `p`; otherwise the directory is `.` |
| FileUtils.PathOfJoin | main.py:49 | splitting `dir/name` gives back the directory and the name |
| Config.Getenv | app/core/config.py:21 | `os.getenv(key, default)` |
| Config.PathJoin | app/core/config.py:21-22 | `Path(base) / v`: an absolute `v` replaces the base, an empty one leaves it, and a relative one follows the base after a `/` |
| Config.FromEnvironment | app/core/config.py:20-26 | `MODELS_DIR` and `BRAND_MODEL_PATH` are `BASE_DIR /` the environment value or its default; the Drive settings are the environment values, or empty when unset; the base directory and the port are kept |
| Config.ModelsDirFromEnvironment | app/core/config.py:20-21 | unset `MODELS_DIR` gives `<base>/models/car_models`; an absolute value is used as it is whatever the base; an empty one is the base; a relative one sits under the base |
| Config.ParseEntry | app/core/config.py:67-68 | the brand of an entry holds no `:` |
| Config.ParseEntryPair | app/core/config.py:67-68 | `brand:id` with trimmed parts parses back to `(brand, id)`, and the id may hold further colons |
| Config.GetBrandModelIdsMap | app/core/config.py:63-69 | the loop builds the map of the entries that hold a `:`, assigned in order |
| Config.BrandModelIdsEmpty | app/core/config.py:63-64 | an empty setting gives an empty map |
| Config.EntryWithoutColonSkipped | app/core/config.py:65-66 | an entry without `:` adds nothing |
| Config.EntryPairsSnoc | app/core/config.py:65-68 | each further entry adds its parsed pair, or nothing when it holds no `:` |
| Config.PairsToMapHas | app/core/config.py:68 | a brand is in the map exactly when some entry names it |
| Config.PairsToMapLastWins | app/core/config.py:68 | a later entry for a brand overrides earlier ones |
| Config.SingleEntryRoundTrip | app/core/config.py:63-69 | a single well-formed `brand:id` setting gives exactly `{brand: id}` |
| Config.Validate | app/core/config.py:79-90 | a URL error exactly when the URL is empty or holds `SEU_FILE_ID`; an ids error exactly when the ids are empty; a port error exactly outside 1000..65535; errors in check order |
| ImageProcessor.ValidateImageTypeExact | app/utils/image_processor.py:31 | true exactly for `image/jpeg`, `image/png` and `image/jpg` |
| ImageProcessor.ValidateImageTypeRejects | app/utils/image_processor.py:31 | `image/gif`, `IMAGE/JPEG` and `image/jpeg ` are refused |
| ImageProcessor.ValidateImageSizeBoundary | app/utils/image_processor.py:44 | 10485760 bytes pass and 10485761 do not |
| ImageProcessor.ValidateImageSizeMonotone | app/utils/image_processor.py:44 | shorter data than accepted data is accepted |
| Downloader.GetBrandModelUrl | app/utils/downloader.py:67-79 | nothing for an empty map, a brand that is not an exact key, or an empty id; otherwise the Drive URL of the id |
| Downloader.GetBrandModelUrlRoundTrip | app/utils/downloader.py:67-76 | the URL for a configured brand holds its id, and any other brand gets nothing |
| Downloader.DownloadEffect | app/utils/downloader.py:34-42 | a placeholder URL changes nothing; otherwise the destination directory exists afterwards |
| Downloader.DownloadFromDrive | app/utils/downloader.py:33-53 | false with no disk change for a placeholder URL; otherwise true exactly when the transfer did not raise and the destination exists |
| Downloader.IsModelCached | app/utils/downloader.py:92 | true exactly when the path exists |
| Predictions.Min | app/services/car_model_classifier.py:307 | `min(a, b)` |
| Predictions.TopK | app/services/car_model_classifier.py:307 | `topk(k)` is the first `k` ranked pairs, and fails for `k` below 0 or above the number of classes |
| Predictions.Label | app/services/car_model_classifier.py:317 | the mapped name, or `Unknown_<idx>` when the key is unmapped |
| Predictions.UnknownLabelInjective | app/services/car_model_classifier.py:317 | different unmapped indices get different labels |
| Predictions.LabelOfInvertedClass | app/services/brand_classifier.py:223 | an index given to exactly one class is labelled with that class |
| Predictions.LabelOfUnmappedIndex | app/services/brand_classifier.py:223 | an index no class was given is labelled `Unknown_<idx>` |
| BrandClassifiers.BrandModelInfoDefaults | app/services/brand_classifier.py:62-66 | missing metadata gives `efficientnet_b3`, 0 classes and accuracy 0 |
| BrandClassifiers.BrandFallbackIsB3 | app/services/brand_classifier.py:119-121 | undetectable checkpoints and unknown names give the b3 backbone |
| BrandClassifiers.BrandClassifier.constructor | app/services/brand_classifier.py:23-32 | `model_path or settings.BRAND_MODEL_PATH`: the given path, or the configured one split into directory and name; nothing is loaded |
| BrandClassifiers.BrandModelPathDefault | app/core/config.py:22 | without `BRAND_MODEL_PATH`, the brand network is `mark_efficientnet_b3_acc_97.46.pth` in `<base>/models` |
| BrandClassifiers.BrandClassifier.DownloadModel | app/services/brand_classifier.py:48-53 | the download's disk effect; success exactly when the download succeeds, else `DownloadFailed` |
| BrandClassifiers.BrandClassifier.LoadModel | app/services/brand_classifier.py:57-91 | metadata, `class_to_idx` and its inversion are set once the checkpoint is read; the network once detection succeeds; the result is that of detect-build-load; an unreadable file changes nothing |
| BrandClassifiers.BrandClassifier.Initialize | app/services/brand_classifier.py:36-41 | an existing file is not downloaded again; a missing file is downloaded and the disk is the download's effect; a failed download is `DownloadFailed`; once the file is present the outcome is that of `_load_model`; success leaves a network and the inverted table |
| BrandClassifiers.BrandClassifier.Predict | app/services/brand_classifier.py:202-237 | `min(top_k, len(idx_to_class))` entries, ranked from 1 and labelled by integer index; `topk` errors and an empty result are raised |
| CarModelClassifiers.IdxToModel | app/services/car_model_classifier.py:236-242 | `idx_to_model` when non-empty, else `class_to_idx` inverted |
| CarModelClassifiers.LoadEntry | app/services/car_model_classifier.py:227-265 | the cached entry: detect-build-load with the b0 fallback, the table, and the metadata with defaults (the brand, 0 classes, accuracy 0) |
| CarModelClassifiers.LoadEntryRoundTrip | app/services/car_model_classifier.py:227-265 | a checkpoint saved from a network this code builds loads as that network, with default metadata |
| CarModelClassifiers.LookupKey | app/services/car_model_classifier.py:316-319 | `str(idx)` when the first key is a string, `idx` otherwise |
| CarModelClassifiers.ModelLabelStringKeys | app/services/car_model_classifier.py:316-317 | a string-keyed table finds the name stored under the decimal index |
| CarModelClassifiers.ModelLabelFirstKeyDecides | app/services/car_model_classifier.py:316-319 | with an integer first key, a name stored under the decimal string is not found |
| CarModelClassifiers.DiskBrands | app/services/car_model_classifier.py:429-430 | one reported brand per listed file |
| CarModelClassifiers.CachedStatusesAt | app/services/car_model_classifier.py:420-425 | one in-memory status per cached brand, in cache order |
| CarModelClassifiers.DiskStatusesUncached | app/services/car_model_classifier.py:429-438 | every disk status is off-memory and names a brand that is not cached |
| CarModelClassifiers.DiskStatusesComplete | app/services/car_model_classifier.py:429-438 | a file is reported exactly when its reported brand is not cached |
| CarModelClassifiers.CachedBrandReportedOnce | app/services/car_model_classifier.py:417-443 | each cached brand appears exactly once in the report, in memory, at its cache position |
| CarModelClassifiers.DiskBrandOfPth | app/services/car_model_classifier.py:430 | `<brand>_efficientnet_b3.pth`, and `<brand>.pth` for a non-empty brand, are reported as `<brand>` whenever no `_efficientnet_b3` starts inside the brand; underscores and dots of the brand are kept |
| CarModelClassifiers.CachedBrandListedTwice | app/services/car_model_classifier.py:417-435 | a cached brand that normalisation changes is reported twice: in memory under its raw name, then off memory under its file's name |
| CarModelClassifiers.LandRoverListedTwice | app/services/car_model_classifier.py:417-435 | a cached `Land Rover` with its file on disk is reported as `Land Rover` in memory and `Land_Rover` off memory |
| CarModelClassifiers.DiskBrandNotInjective | app/services/car_model_classifier.py:430 | `<brand>.pth` and `<brand>_efficientnet_b3.pth` are two different files reported as the same brand |
| CarModelClassifiers.FormatPredictions | app/services/car_model_classifier.py:310-328 | one entry per top pair: rank `i + 1`, the caller's brand, the looked-up model name and `"<brand> <model>"` |
| CarModelClassifiers.CarModelClassifier.constructor | app/services/car_model_classifier.py:32-36 | the given or configured models directory is made, and the cache starts empty |
| CarModelClassifiers.CarModelClassifier.GetModelPath | app/services/car_model_classifier.py:63-80 | an existing file in the legacy directory, or `models_dir/<b>_efficientnet_b3.pth`; always the latter without a legacy directory |
| CarModelClassifiers.ModelPathFallback | app/services/car_model_classifier.py:79-80 | without a legacy directory, the path is the default file |
| CarModelClassifiers.ModelPathPrefersAccuracyFile | app/services/car_model_classifier.py:66-77 | an `<b>_model_acc_*.pth` file in the legacy directory wins |
| CarModelClassifiers.ModelPathPlainFile | app/services/car_model_classifier.py:69-77 | otherwise an exact `<b>_model.pth` wins |
| CarModelClassifiers.ModelPathAnyFile | app/services/car_model_classifier.py:69-77 | otherwise any `<b>_*.pth` file is used |
| CarModelClassifiers.AccPatternMatches | app/services/car_model_classifier.py:70 | the accuracy pattern matches names with its prefix and `.pth` suffix |
| CarModelClassifiers.PlainPatternMatches | app/services/car_model_classifier.py:71 | the plain pattern matches only `<b>_model.pth` |
| CarModelClassifiers.AnyPatternMatches | app/services/car_model_classifier.py:72 | the catch-all pattern matches names with prefix `<b>_` and suffix `.pth` |
| CarModelClassifiers.CarModelClassifier.DownloadBrandModel | app/services/car_model_classifier.py:93-110 | true with no disk change when the file exists; false with no change without a URL; otherwise the download's effect and result |
| CarModelClassifiers.ReadEntry | app/services/car_model_classifier.py:227-274 | only a regular file holding a saved checkpoint can yield an entry; anything else is `UnreadableCheckpoint` |
| CarModelClassifiers.CarModelClassifier.LoadBrandModel | app/services/car_model_classifier.py:213-274 | a cache hit returns the stored entry and changes nothing; on a miss, a missing file is downloaded when the brand has a URL, and the disk is the download's effect; a file still absent is `ModelUnavailable`; a present file gives the entry read from it, which alone is cached; any failure leaves the cache unchanged |
| CarModelClassifiers.CarModelClassifier.Predict | app/services/car_model_classifier.py:288-350 | every failure is `success: False` with the fault of the load or of `topk`; on a miss the disk is the download's effect and the cache gains exactly the entry read from the file; otherwise `min(top_k, len(idx_to_model))` entries for the caller's brand with the entry's accuracy and class count; other brands' entries are unchanged |
| CarModelClassifiers.CarModelClassifier.CleanupBrandModel | app/services/car_model_classifier.py:362-376 | the brand leaves the cache; the result is true exactly when it was cached or its file was deleted |
| CarModelClassifiers.CarModelClassifier.CleanupAllModels | app/services/car_model_classifier.py:389-404 | the cache ends empty with the old cache size reported; only the `*.pth` regular files of `models_dir` are deleted and counted |
| CarModelClassifiers.CarModelClassifier.GetLoadedModelsInfo | app/services/car_model_classifier.py:417-443 | the cached brands, then the uncached disk files; `total_in_memory` is the cache size and `total_on_disk` counts every `.pth` file |
| CarModelClassifiers.UncachedStatuses | app/services/car_model_classifier.py:428-438 | the disk loop yields the statuses of the uncached files, in order |
| CarApi.CarModelInfoDefaults | main.py:107-112 | missing metadata gives `efficientnet_b3`, 742 classes, accuracy 0 and epoch 0 |
| CarApi.CarNetwork | main.py:118-129 | always B3 with hidden width 512 and `num_classes` outputs |
| CarApi.CarNetworkIgnoresModelType | main.py:117-132 | this network is what stage-2 detection builds for an untagged B3 checkpoint of hidden width 512 |
| CarApi.DriveUrlRejectedIsUnconfigured | main.py:70 | every URL this service rejects is also rejected by `Settings.validate` |
| CarApi.ShortPlaceholderAccepted | main.py:70 | a URL holding only `SEU_FILE_ID` passes this service's check |
| CarApi.SplitClassName | main.py:184-187 | the brand holds no `_`; with a `_` the parts rejoin to the name; without one the model is `Unknown` |
| CarApi.SplitClassNameRoundTrip | main.py:184-185 | `brand_model` with a `_`-free brand splits back into its parts |
| CarApi.UnknownLabelSplits | main.py:181-187 | an unmapped index gives brand `Unknown` and model `<idx>` |
| CarApi.CarPredictionParts | main.py:181-196 | `brand_model` is the unsplit class name, and brand and model rejoin to it |
| CarApi.CheckPredictRequest | main.py:320-329 | the request goes ahead exactly with a model, a content type starting with `image/`, and `1 <= top_k <= 10`; 503 comes first, then 400 |
| CarApi.EndpointAcceptsGif | main.py:324 | the endpoint lets `image/gif` through, which `validate_image_type` refuses |
| CarApi.AllowedTypesPassEndpoint | main.py:324 | every type `validate_image_type` accepts passes the endpoint |
| CarApi.AcceptedRequestCount | main.py:320-337 | an accepted request on a non-empty model asks for between 1 and 10 predictions |
| CarApi.FormatCarPredictions | main.py:177-196 | one entry per top pair: rank `i + 1`, the split class name and the unsplit one |
| CarApi.CarClassificationModel.constructor | main.py:49 | `Path(model_path)`: the path string split into directory and name; nothing is loaded |
| CarApi.ModelPathSettingFile | main.py:215 | without `MODEL_PATH`, the car network is `best_model_efficientnet_b3_acc_84.81.pth` in `models`; a setting with a `/` is split into its directory and last component |
| CarApi.CarClassificationModel.DownloadModelFromDrive | main.py:65-98 | a rejected URL raises with no disk change; otherwise the directory is made and the transfer applied; a raising transfer or a missing file afterwards raises |
| CarApi.CarClassificationModel.LoadModel | main.py:100-140 | metadata with defaults, the inverted table and the B3 network are set; then a missing state dict or a failed strict load raises; an unreadable file changes nothing |
| CarApi.CarClassificationModel.Initialize | main.py:53-58 | an existing file is not downloaded again; a missing file with a rejected URL raises; otherwise the disk is the download's effect and a raising or file-less download fails with its fault; once the file is present the outcome is that of `_load_model`; success leaves the B3 network of the metadata |
| CarApi.CarClassificationModel.Predict | main.py:162-212 | no model gives `success: False`; otherwise `min(top_k, len(idx_to_class))` split entries ranked from 1, or `success: False` when `topk` fails |

## Left out

- **torch and torchvision** are out: `torch.load` deserialisation, backbone construction,
  the forward pass, softmax and `topk` ordering. They are foreign library code over
  floating-point tensors.
  - A checkpoint is a record of the keys the code reads, with tensors as shapes.
  - The strict load checks the feature projection and every head tensor exactly; the rest
    of the backbone is the input `restOk`.
  - The ranking is an input, and no tie order is assumed.
- **`weights_only=False`, the device choice, `.to(device)` and `eval()`** are out: they
  do not change what the code decides.
- **`confidence_percent` and `get_file_size_mb` / `size_mb`** are out: they are
  floating-point rounding and file sizes.
- **`_setup_transforms`, `image.convert('RGB')`, `load_image_from_bytes` and
  `get_image_info`** are out: they are PIL and torchvision image handling.
- **`BrandClassifier.get_info`** is out: it copies three metadata fields next to the
  device and path strings.
- **`gdown.download`** is a `Transfer` input: the file it writes, if any, and whether it
  raised. Network access is not modelled.
- **The file system** is a map from directory path to a listing.
  - Permission errors, symbolic links, and `mkdir` failing on a file path are not modelled.
  - Nested directories exist only as listing entries.
  - A `parents=True` chain is one directory.
- **Glob bracket classes `[...]`** are out. The patterns hold the normalised brand
  (app/services/car_model_classifier.py:63-72), and `Glob.Match` reads `[` and `]` as
  plain characters, so brands holding `[` or `]` are outside the model. A `*` or `?` in a
  brand is a wildcard in both.
- **pathlib normalisation** is out: `PathJoin` and `PathOf` do not collapse `.`
  components, repeated slashes or a trailing slash, and the base directory is taken to
  have no trailing slash.
- **Concurrency** is out: the code has no locks, and the model is sequential.
- **`__init__` is two steps.** In `BrandClassifier` and `CarClassificationModel`,
  allocation is the constructor and the failing part is `Initialize`. An object whose
  `Initialize` failed is one Python would not have kept.
- **The exception handlers of `cleanup_brand_model` and `cleanup_all_models`** are out:
  no modelled step in them can raise.
- **`clear_directory`'s handler for a failing `unlink`** is out: unlinking a listed
  regular file always succeeds in the model.
- **`model_to_idx`** is out: `_load_brand_model` reads it and never uses it.
- **The `main.py` wiring** is out: the module-level `car_model`, `load_model`, the startup
  event, the root endpoint, CORS and `uvicorn.run`. Only `MODEL_PATH` is modelled, as
  `CarApi.ModelPathSetting`. There, `car_model is None` is the
  `modelLoaded` input of `CarApi.CheckPredictRequest`.
- **The body of the `/predict` endpoint after its checks** is out: reading the upload,
  `file_info`, and the 500 answer. These are HTTP glue around `predict`.
- **The other settings** are out: CORS, `AUTO_CLEANUP_MODELS`, `LOG_LEVEL` and the API
  strings. `int()` parsing of `API_PORT` is out too; the port is an integer input of
  `Config.FromEnvironment`.
- **Logging** is out.
- CarModelClassifiers.CarModelClassifier.Predict: the ranking is not tied to the network's
  class count, so a ranking shorter than `min(top_k, len(idx_to_model))` is a `topk`
  failure here.
- BrandClassifiers.BrandClassifier.Predict: the same holds for
  `min(top_k, len(idx_to_class))` (app/services/brand_classifier.py:216).
- CarApi.CarClassificationModel.Predict: the same holds for `min(top_k, len(idx_to_class))`
  (main.py:175).
- Predictions.TopK: the order of pairs with equal probability is whatever the ranking
  input says.
