/** The application settings (`Settings` in `app/core/config.py`): the values read from the
    environment, the brand-to-file-id table parsed from `DRIVE_BRAND_MODELS_IDS`, and the
    start-up validation. */
module Config {
  import opened Text

  const DefaultModelsDir := "models/car_models"
  const DefaultBrandModelDir := "models"
  const DefaultBrandModelFile := "mark_efficientnet_b3_acc_97.46.pth"
  const DefaultBrandModelPath := DefaultBrandModelDir + "/" + DefaultBrandModelFile
  const DefaultApiPort: int := 8000

  /** `MAX_IMAGE_SIZE`: 10 MiB. */
  const MaxImageSize: nat := 10 * 1024 * 1024

  /** `ALLOWED_IMAGE_TYPES`. */
  const AllowedImageTypes: set<string> := {"image/jpeg", "image/png", "image/jpg"}

  /** The settings the modelled code reads. Paths are strings joined with `/`. */
  datatype Settings = Settings(
    baseDir: string,
    modelsDir: string,
    brandModelPath: string,
    driveBrandModelUrl: string,
    driveBrandModelsIds: string,
    apiPort: int)

  /** `os.getenv(key, default)`. */
  function Getenv(env: map<string, string>, key: string, default: string): (v: string)
    ensures key in env ==> v == env[key]
    ensures key !in env ==> v == default
  {
    if key in env then env[key] else default
  }

  /** `Path(base) / v`: an absolute `v` replaces the base, an empty one leaves it, and any
      other is appended after a `/`. */
  function PathJoin(base: string, v: string): (r: string)
    ensures v != [] && v[0] == '/' ==> r == v
    ensures v == [] ==> r == base
    ensures v != [] && v[0] != '/' ==> IsPrefix(base + "/", r) && r[|base| + 1..] == v
  {
    if v == [] then base
    else if v[0] == '/' then v
    else base + "/" + v
  }

  /** The class attributes of `Settings`, for a project directory `baseDir`, an environment
      `env`, and `apiPort` as `int(os.getenv('API_PORT', '8000'))` evaluated it. */
  function FromEnvironment(baseDir: string, env: map<string, string>, apiPort: int): (s: Settings)
    ensures s.modelsDir == PathJoin(baseDir, Getenv(env, "MODELS_DIR", DefaultModelsDir))
    ensures s.brandModelPath == PathJoin(baseDir, Getenv(env, "BRAND_MODEL_PATH", DefaultBrandModelPath))
    ensures "DRIVE_BRAND_MODEL_URL" !in env ==> s.driveBrandModelUrl == ""
    ensures "DRIVE_BRAND_MODELS_IDS" !in env ==> s.driveBrandModelsIds == ""
    ensures "DRIVE_BRAND_MODEL_URL" in env ==> s.driveBrandModelUrl == env["DRIVE_BRAND_MODEL_URL"]
    ensures "DRIVE_BRAND_MODELS_IDS" in env ==> s.driveBrandModelsIds == env["DRIVE_BRAND_MODELS_IDS"]
    ensures s.baseDir == baseDir && s.apiPort == apiPort
  {
    Settings(baseDir,
             PathJoin(baseDir, Getenv(env, "MODELS_DIR", DefaultModelsDir)),
             PathJoin(baseDir, Getenv(env, "BRAND_MODEL_PATH", DefaultBrandModelPath)),
             Getenv(env, "DRIVE_BRAND_MODEL_URL", ""),
             Getenv(env, "DRIVE_BRAND_MODELS_IDS", ""),
             apiPort)
  }

  /** Where the models directory ends up: the default under the base directory when
      `MODELS_DIR` is unset, an absolute setting as it is whatever the base, an empty one at
      the base itself, and a relative one under the base. */
  lemma ModelsDirFromEnvironment(baseDir: string, env: map<string, string>, apiPort: int)
    ensures var d := FromEnvironment(baseDir, env, apiPort).modelsDir;
            && ("MODELS_DIR" !in env ==> d == baseDir + "/models/car_models")
            && ("MODELS_DIR" in env && env["MODELS_DIR"] != [] && env["MODELS_DIR"][0] == '/' ==> d == env["MODELS_DIR"])
            && ("MODELS_DIR" in env && env["MODELS_DIR"] == [] ==> d == baseDir)
            && ("MODELS_DIR" in env && env["MODELS_DIR"] != [] && env["MODELS_DIR"][0] != '/' ==>
                  IsPrefix(baseDir + "/", d) && d[|baseDir| + 1..] == env["MODELS_DIR"])
  {
    var d := FromEnvironment(baseDir, env, apiPort).modelsDir;
    if "MODELS_DIR" !in env {
      assert d == baseDir + "/models/car_models";
    } else if env["MODELS_DIR"] == [] {
      assert d == baseDir;
    } else if env["MODELS_DIR"][0] == '/' {
      assert d == env["MODELS_DIR"];
    } else {
      assert IsPrefix(baseDir + "/", d) && d[|baseDir| + 1..] == env["MODELS_DIR"];
    }
  }

  /** A non-space character survives `strip`. */
  lemma StripKeeps(s: string, c: char)
    requires c in s && !IsSpace(c)
    ensures c in Strip(s)
  {
    var r, n := Strip(s), LeadingSpace(s);
    StripShape(s);
    forall k | 0 <= k < n ensures s[k] != c { assert s[k] == s[..n][k]; }
    forall k | n + |r| <= k < |s| ensures s[k] != c { assert s[k] == s[n + |r|..][k - n - |r|]; }
    var i :| 0 <= i < |s| && s[i] == c;
    assert s[i] == r[i - n];
  }

  /** One `brand:id` entry: the stripped entry split at its first `:`, each side stripped. */
  function ParseEntry(entry: string): (bi: (string, string))
    requires ':' in entry
    ensures ':' !in bi.0
  {
    StripKeeps(entry, ':');
    var parts := SplitFirst(Strip(entry), ':');
    var brand := Strip(parts.0);
    assert ':' !in brand by {
      var n := LeadingSpace(parts.0);
      StripShape(parts.0);
      forall k | 0 <= k < |brand| ensures brand[k] != ':' {
        assert brand[k] == parts.0[n + k];
      }
    }
    (brand, Strip(parts.1))
  }

  /** The pairs of the entries that hold a `:`, in order. */
  function EntryPairs(entries: seq<string>): seq<(string, string)> {
    if entries == [] then []
    else
      var init, last := entries[..|entries| - 1], entries[|entries| - 1];
      if ':' in last then EntryPairs(init) + [ParseEntry(last)] else EntryPairs(init)
  }

  /** A dict built by assigning the pairs in order: later pairs override earlier ones. */
  function PairsToMap(pairs: seq<(string, string)>): map<string, string> {
    if pairs == [] then map[]
    else
      var last := pairs[|pairs| - 1];
      PairsToMap(pairs[..|pairs| - 1])[last.0 := last.1]
  }

  /** `Settings.get_brand_model_ids_map` as a value: empty for an empty setting, else the
      pairs of the comma-separated entries assigned in order. */
  function BrandModelIdsMap(ids: string): map<string, string> {
    if ids == [] then map[] else PairsToMap(EntryPairs(Split(ids, ',')))
  }

  /** One more entry adds its pair, or nothing when it holds no `:`. */
  lemma EntryPairsSnoc(entries: seq<string>, entry: string)
    ensures EntryPairs(entries + [entry]) ==
              if ':' in entry then EntryPairs(entries) + [ParseEntry(entry)] else EntryPairs(entries)
  {
    assert (entries + [entry])[..|entries|] == entries;
  }

  /** One more pair is one more assignment. */
  lemma PairsToMapSnoc(pairs: seq<(string, string)>, pair: (string, string))
    ensures PairsToMap(pairs + [pair]) == PairsToMap(pairs)[pair.0 := pair.1]
  {
    assert (pairs + [pair])[..|pairs|] == pairs;
  }

  /** `Settings.get_brand_model_ids_map`. */
  method GetBrandModelIdsMap(s: Settings) returns (modelsMap: map<string, string>)
    ensures modelsMap == BrandModelIdsMap(s.driveBrandModelsIds)
  {
    modelsMap := map[];
    if s.driveBrandModelsIds != [] {
      var entries := Split(s.driveBrandModelsIds, ',');
      var i := 0;
      while i < |entries|
        invariant 0 <= i <= |entries|
        invariant modelsMap == PairsToMap(EntryPairs(entries[..i]))
      {
        var entry := entries[i];
        EntryPairsSnoc(entries[..i], entry);
        assert entries[..i + 1] == entries[..i] + [entry];
        if ':' in entry {
          var bi := ParseEntry(entry);
          PairsToMapSnoc(EntryPairs(entries[..i]), bi);
          modelsMap := modelsMap[bi.0 := bi.1];
        }
        i := i + 1;
      }
      assert entries[..i] == entries;
    }
  }

  /** An empty setting gives an empty table. */
  lemma BrandModelIdsEmpty()
    ensures BrandModelIdsMap("") == map[]
  {
  }

  /** An entry without `:` is skipped. */
  lemma EntryWithoutColonSkipped(entries: seq<string>, entry: string)
    requires ':' !in entry
    ensures EntryPairs(entries + [entry]) == EntryPairs(entries)
  {
    EntryPairsSnoc(entries, entry);
  }

  /** A brand is in the table exactly when some pair names it. */
  lemma {:induction false} PairsToMapHas(pairs: seq<(string, string)>, brand: string)
    ensures brand in PairsToMap(pairs) <==> exists j :: 0 <= j < |pairs| && pairs[j].0 == brand
    decreases |pairs|
  {
    if pairs != [] {
      var n := |pairs|;
      var init := pairs[..n - 1];
      PairsToMapHas(init, brand);
      if pairs[n - 1].0 != brand {
        if exists j :: 0 <= j < n && pairs[j].0 == brand {
          var j :| 0 <= j < n && pairs[j].0 == brand;
          assert init[j] == pairs[j];
        }
        forall j | 0 <= j < n - 1 && init[j].0 == brand ensures pairs[j].0 == brand {
          assert init[j] == pairs[j];
        }
      }
    }
  }

  /** The id of a brand is the one of the LAST pair naming it. */
  lemma {:induction false} PairsToMapLastWins(pairs: seq<(string, string)>, j: nat)
    requires j < |pairs|
    requires forall k :: j < k < |pairs| ==> pairs[k].0 != pairs[j].0
    ensures pairs[j].0 in PairsToMap(pairs) && PairsToMap(pairs)[pairs[j].0] == pairs[j].1
    decreases |pairs|
  {
    var n := |pairs|;
    if j < n - 1 {
      var init := pairs[..n - 1];
      forall k | j < k < n - 1 ensures init[k].0 != init[j].0 { assert init[k] == pairs[k]; }
      PairsToMapLastWins(init, j);
      assert init[j] == pairs[j];
    }
  }

  /** Splitting `brand:id` gives back `brand` and `id` when neither has surrounding white
      space and the brand holds no `:`; the id may hold any number of them. */
  lemma ParseEntryPair(brand: string, id: string)
    requires brand != [] && ':' !in brand
    requires !IsSpace(brand[0]) && !IsSpace(brand[|brand| - 1])
    requires id == [] || (!IsSpace(id[0]) && !IsSpace(id[|id| - 1]))
    ensures ':' in brand + ":" + id
    ensures ParseEntry(brand + ":" + id) == (brand, id)
  {
    var s := brand + ":" + id;
    assert s[|brand|] == ':';
    assert s[0] == brand[0];
    assert s[|s| - 1] == if id == [] then ':' else id[|id| - 1];
    StripTrimmed(s);
    assert FirstIndex(s, ':') == |brand| by {
      forall k | 0 <= k < |brand| ensures s[k] != ':' { assert s[k] == brand[k]; }
    }
    assert s[..|brand|] == brand && s[|brand| + 1..] == id;
    StripTrimmed(brand);
    StripTrimmed(id);
  }

  /** A well-formed single `brand:id` setting gives exactly that pair. */
  lemma SingleEntryRoundTrip(brand: string, id: string)
    requires brand != [] && ',' !in brand && ':' !in brand && ',' !in id
    requires !IsSpace(brand[0]) && !IsSpace(brand[|brand| - 1])
    requires id == [] || (!IsSpace(id[0]) && !IsSpace(id[|id| - 1]))
    ensures BrandModelIdsMap(brand + ":" + id) == map[brand := id]
  {
    var s := brand + ":" + id;
    assert ',' !in s by {
      forall k | 0 <= k < |s| ensures s[k] != ',' {
        if k < |brand| { assert s[k] == brand[k]; }
        else if k > |brand| { assert s[k] == id[k - |brand| - 1]; }
      }
    }
    assert Split(s, ',') == [s];
    ParseEntryPair(brand, id);
    EntryPairsSnoc([], s);
    assert [] + [s] == [s];
    PairsToMapSnoc([], (brand, id));
    assert [] + [(brand, id)] == [(brand, id)];
  }

  /** The errors `Settings.validate` reports, in the order it checks for them. */
  datatype ConfigError = UrlNotConfigured | IdsNotConfigured | InvalidPort(port: int)

  /** The position of an error kind in the order of the checks. */
  function CheckRank(e: ConfigError): nat {
    match e
    case UrlNotConfigured => 0
    case IdsNotConfigured => 1
    case InvalidPort(_) => 2
  }

  /** A placeholder brand URL: empty, or still holding the template's `SEU_FILE_ID`. */
  predicate UrlUnconfigured(url: string) {
    url == [] || Contains(url, "SEU_FILE_ID")
  }

  /** `Settings.validate`. */
  method Validate(s: Settings) returns (errors: seq<ConfigError>)
    ensures UrlNotConfigured in errors <==> UrlUnconfigured(s.driveBrandModelUrl)
    ensures IdsNotConfigured in errors <==> s.driveBrandModelsIds == []
    ensures InvalidPort(s.apiPort) in errors <==> !(1000 <= s.apiPort <= 65535)
    ensures forall e :: e in errors && e.InvalidPort? ==> e.port == s.apiPort
    ensures forall i, j :: 0 <= i < j < |errors| ==> CheckRank(errors[i]) < CheckRank(errors[j])
  {
    errors := [];
    if s.driveBrandModelUrl == [] || Contains(s.driveBrandModelUrl, "SEU_FILE_ID") {
      errors := errors + [UrlNotConfigured];
    }
    if s.driveBrandModelsIds == [] {
      errors := errors + [IdsNotConfigured];
    }
    if !(1000 <= s.apiPort <= 65535) {
      errors := errors + [InvalidPort(s.apiPort)];
    }
  }
}
