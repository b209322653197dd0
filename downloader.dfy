/** `ModelDownloader` (`app/utils/downloader.py`): the Google Drive URL of a brand's
    model, the guarded download, and the cache test. `gdown.download` is not modelled; its
    effect is an input `Transfer`. */
module Downloader {
  import opened Outcomes
  import opened Text
  import opened Checkpoints
  import opened FileUtils
  import opened Config

  const DriveUrlPrefix := "https://drive.google.com/uc?id="

  /** `get_brand_model_url`: nothing when the table is empty or the brand is not an exact
      key or its id is empty; otherwise the Drive URL for the id. */
  function GetBrandModelUrl(s: Settings, brand: string): (r: Option<string>)
    ensures BrandModelIdsMap(s.driveBrandModelsIds) == map[] ==> r.None?
    ensures brand !in BrandModelIdsMap(s.driveBrandModelsIds) ==> r.None?
    ensures r.Some? <==> brand in BrandModelIdsMap(s.driveBrandModelsIds) && BrandModelIdsMap(s.driveBrandModelsIds)[brand] != ""
    ensures r.Some? ==> r.value == DriveUrlPrefix + BrandModelIdsMap(s.driveBrandModelsIds)[brand]
  {
    var modelsMap := BrandModelIdsMap(s.driveBrandModelsIds);
    if modelsMap == map[] then None
    else if brand in modelsMap && modelsMap[brand] != "" then Some(DriveUrlPrefix + modelsMap[brand])
    else None
  }

  /** A setting of one `brand:id` entry yields the URL of that id for that brand, and
      nothing for any other brand (keys are compared exactly, case included). */
  lemma GetBrandModelUrlRoundTrip(s: Settings, brand: string, id: string, other: string)
    requires s.driveBrandModelsIds == brand + ":" + id
    requires brand != [] && ',' !in brand && ':' !in brand && ',' !in id && id != []
    requires !IsSpace(brand[0]) && !IsSpace(brand[|brand| - 1]) && !IsSpace(id[0]) && !IsSpace(id[|id| - 1])
    requires other != brand
    ensures GetBrandModelUrl(s, brand) == Some(DriveUrlPrefix + id)
    ensures GetBrandModelUrl(s, other) == None
  {
    SingleEntryRoundTrip(brand, id);
  }

  /** What `gdown.download` did: the file it left at the destination, if any, and whether
      it raised. */
  datatype Transfer = Transfer(written: Option<Blob>, raises: bool)

  /** The listings after the transfer wrote (or did not write) the destination. */
  function AfterTransfer(dirs: map<string, seq<DirEntry>>, dest: FilePath, t: Transfer): map<string, seq<DirEntry>>
    requires dest.dir in dirs
  {
    if t.written.Some? then WithFile(dirs, dest, t.written.value) else dirs
  }

  /** The listings after `download_from_drive`: untouched for a placeholder URL, else the
      destination directory made and the transfer applied. */
  function DownloadEffect(dirs: map<string, seq<DirEntry>>, url: string, dest: FilePath, t: Transfer): (r: map<string, seq<DirEntry>>)
    ensures UrlUnconfigured(url) ==> r == dirs
    ensures !UrlUnconfigured(url) ==> dest.dir in r
    ensures !UrlUnconfigured(url) && t.written.None? ==> r == WithDirectory(dirs, dest.dir)
  {
    if UrlUnconfigured(url) then dirs else AfterTransfer(WithDirectory(dirs, dest.dir), dest, t)
  }

  /** `download_from_drive`: a missing or placeholder URL fails before anything is done;
      otherwise the parent directory is made, the transfer runs, and the result is true
      exactly when the transfer did not raise and the destination exists afterwards. */
  method DownloadFromDrive(disk: Disk, url: string, dest: FilePath, transfer: Transfer) returns (ok: bool)
    requires disk.Valid()
    modifies disk
    ensures disk.Valid()
    ensures disk.dirs == DownloadEffect(old(disk.dirs), url, dest, transfer)
    ensures ok <==> !UrlUnconfigured(url) && !transfer.raises && disk.Exists(dest)
    ensures UrlUnconfigured(url) ==> !ok
    ensures !UrlUnconfigured(url) && transfer.written.Some? ==> disk.Lookup(dest) == Some(RegularFile(transfer.written.value))
  {
    if url == [] || Contains(url, "SEU_FILE_ID") {
      return false;
    }
    disk.EnsureDirectory(dest.dir);
    if transfer.written.Some? {
      disk.WriteFile(dest, transfer.written.value);
    }
    if transfer.raises {
      return false;
    }
    ok := disk.Exists(dest);
  }

  /** `is_model_cached`: the path exists. */
  function IsModelCached(disk: Disk, p: FilePath): (r: bool)
    reads disk
    ensures r <==> disk.Lookup(p).Some?
  {
    disk.Exists(p)
  }
}
