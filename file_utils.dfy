/** The file system as the classifiers see it, and the `FileUtils` helpers over it.

    A directory is known by its path and holds a listing of entries in directory order
    (the order `glob` yields them in). An entry is a regular file, whose content is what
    `torch.load` would make of it, or a sub-directory. A file path is a directory path
    and a name in it. */
module FileUtils {
  import opened Outcomes
  import opened Text
  import opened Glob
  import opened Checkpoints

  datatype Node = RegularFile(content: Blob) | Directory

  datatype DirEntry = DirEntry(name: string, node: Node)

  datatype FilePath = FilePath(dir: string, name: string)

  /** Some entry of the listing is called `name`. */
  predicate Listed(entries: seq<DirEntry>, name: string) {
    entries != [] && (entries[0].name == name || Listed(entries[1..], name))
  }

  /** No name is listed twice. */
  predicate DistinctNames(entries: seq<DirEntry>) {
    entries == [] || (!Listed(entries[1..], entries[0].name) && DistinctNames(entries[1..]))
  }

  lemma {:induction false} ListedAt(entries: seq<DirEntry>, k: nat)
    requires k < |entries|
    ensures Listed(entries, entries[k].name)
  {
    if k > 0 {
      assert entries[1..][k - 1] == entries[k];
      ListedAt(entries[1..], k - 1);
    }
  }

  lemma {:induction false} ListedConcat(a: seq<DirEntry>, b: seq<DirEntry>, name: string)
    ensures Listed(a + b, name) <==> Listed(a, name) || Listed(b, name)
  {
    if a == [] {
      assert a + b == b;
    } else {
      assert (a + b)[0] == a[0] && (a + b)[1..] == a[1..] + b;
      ListedConcat(a[1..], b, name);
    }
  }

  /** In a listing with distinct names, the name at `i` is listed neither before nor after. */
  lemma {:induction false} DistinctSplit(entries: seq<DirEntry>, i: nat)
    requires DistinctNames(entries) && i < |entries|
    ensures !Listed(entries[..i], entries[i].name) && !Listed(entries[i + 1..], entries[i].name)
  {
    var tail := entries[1..];
    if i == 0 {
      assert entries[1..] == tail;
    } else {
      assert tail[i - 1] == entries[i];
      DistinctSplit(tail, i - 1);
      ListedAt(tail, i - 1);
      assert entries[..i] == [entries[0]] + tail[..i - 1];
      assert entries[i + 1..] == tail[i..];
      assert entries[..i][1..] == tail[..i - 1];
    }
  }

  /** A listing with distinct names stays so when an unlisted name is appended. */
  lemma {:induction false} DistinctAppend(entries: seq<DirEntry>, e: DirEntry)
    requires DistinctNames(entries) && !Listed(entries, e.name)
    ensures DistinctNames(entries + [e])
  {
    if entries != [] {
      var whole := entries + [e];
      assert whole[0] == entries[0] && whole[1..] == entries[1..] + [e];
      DistinctAppend(entries[1..], e);
      ListedConcat(entries[1..], [e], entries[0].name);
    }
  }

  /** The listing after `unlink` of the entry called `name`. */
  function RemoveEntry(entries: seq<DirEntry>, name: string): seq<DirEntry> {
    if entries == [] then []
    else if entries[0].name == name then RemoveEntry(entries[1..], name)
    else [entries[0]] + RemoveEntry(entries[1..], name)
  }

  /** After `RemoveEntry`, exactly the other names are listed. */
  lemma {:induction false} RemoveEntryListed(entries: seq<DirEntry>, name: string, other: string)
    ensures Listed(RemoveEntry(entries, name), other) <==> Listed(entries, other) && other != name
  {
    if entries != [] {
      RemoveEntryListed(entries[1..], name, other);
      var rt := RemoveEntry(entries[1..], name);
      if entries[0].name != name {
        assert ([entries[0]] + rt)[1..] == rt;
      }
    }
  }

  /** `RemoveEntry` keeps the names of a listing distinct. */
  lemma {:induction false} RemoveEntryDistinct(entries: seq<DirEntry>, name: string)
    requires DistinctNames(entries)
    ensures DistinctNames(RemoveEntry(entries, name))
  {
    if entries != [] {
      RemoveEntryDistinct(entries[1..], name);
      var rt := RemoveEntry(entries[1..], name);
      if entries[0].name != name {
        RemoveEntryListed(entries[1..], name, entries[0].name);
        assert ([entries[0]] + rt)[1..] == rt;
      }
    }
  }

  /** Removing a name that is not listed changes nothing. */
  lemma {:induction false} RemoveAbsentEntry(entries: seq<DirEntry>, name: string)
    requires !Listed(entries, name)
    ensures RemoveEntry(entries, name) == entries
  {
    if entries != [] {
      RemoveAbsentEntry(entries[1..], name);
      assert entries == [entries[0]] + entries[1..];
    }
  }

  lemma {:induction false} RemoveEntryConcat(a: seq<DirEntry>, b: seq<DirEntry>, name: string)
    ensures RemoveEntry(a + b, name) == RemoveEntry(a, name) + RemoveEntry(b, name)
  {
    if a == [] {
      assert a + b == b;
    } else {
      assert (a + b)[0] == a[0] && (a + b)[1..] == a[1..] + b;
      RemoveEntryConcat(a[1..], b, name);
    }
  }

  /** Removing a name listed once, at the head of `rest`, drops exactly that entry. */
  lemma RemoveEntryAt(front: seq<DirEntry>, rest: seq<DirEntry>, name: string)
    requires rest != [] && rest[0].name == name
    requires !Listed(front, name) && !Listed(rest[1..], name)
    ensures RemoveEntry(front + rest, name) == front + rest[1..]
  {
    RemoveEntryConcat(front, rest, name);
    RemoveAbsentEntry(front, name);
    RemoveAbsentEntry(rest[1..], name);
  }

  /** `clear_directory` deletes an entry exactly when it is a regular file whose name matches. */
  predicate Cleared(e: DirEntry, pattern: string) {
    e.node.RegularFile? && Match(pattern, e.name)
  }

  /** The entries `clear_directory` leaves in place, in their order. */
  function Survivors(entries: seq<DirEntry>, pattern: string): seq<DirEntry> {
    if entries == [] then []
    else if Cleared(entries[0], pattern) then Survivors(entries[1..], pattern)
    else [entries[0]] + Survivors(entries[1..], pattern)
  }

  /** How many entries `clear_directory` deletes. */
  function ClearedCount(entries: seq<DirEntry>, pattern: string): nat {
    if entries == [] then 0
    else if Cleared(entries[0], pattern) then 1 + ClearedCount(entries[1..], pattern)
    else ClearedCount(entries[1..], pattern)
  }

  lemma {:induction false} SurvivorsConcat(a: seq<DirEntry>, b: seq<DirEntry>, pattern: string)
    ensures Survivors(a + b, pattern) == Survivors(a, pattern) + Survivors(b, pattern)
  {
    if a == [] {
      assert a + b == b;
    } else {
      assert (a + b)[0] == a[0] && (a + b)[1..] == a[1..] + b;
      SurvivorsConcat(a[1..], b, pattern);
      if !Cleared(a[0], pattern) {
        assert [a[0]] + (Survivors(a[1..], pattern) + Survivors(b, pattern)) == ([a[0]] + Survivors(a[1..], pattern)) + Survivors(b, pattern);
      }
    }
  }

  lemma {:induction false} ClearedCountConcat(a: seq<DirEntry>, b: seq<DirEntry>, pattern: string)
    ensures ClearedCount(a + b, pattern) == ClearedCount(a, pattern) + ClearedCount(b, pattern)
  {
    if a == [] {
      assert a + b == b;
    } else {
      assert (a + b)[0] == a[0] && (a + b)[1..] == a[1..] + b;
      ClearedCountConcat(a[1..], b, pattern);
    }
  }

  /** The survivors are exactly the entries that are not matching regular files, and the
      survivors and the deleted entries together account for the whole listing. */
  lemma {:induction false} SurvivorsPartition(entries: seq<DirEntry>, pattern: string)
    ensures forall e :: e in Survivors(entries, pattern) <==> e in entries && !Cleared(e, pattern)
    ensures |Survivors(entries, pattern)| + ClearedCount(entries, pattern) == |entries|
  {
    if entries != [] {
      SurvivorsPartition(entries[1..], pattern);
      assert entries == [entries[0]] + entries[1..];
    }
  }

  /** Only listed names survive. */
  lemma {:induction false} SurvivorsListed(entries: seq<DirEntry>, pattern: string, name: string)
    requires Listed(Survivors(entries, pattern), name)
    ensures Listed(entries, name)
  {
    var st := Survivors(entries[1..], pattern);
    if Cleared(entries[0], pattern) {
      SurvivorsListed(entries[1..], pattern, name);
    } else if entries[0].name != name {
      var r := [entries[0]] + st;
      assert r[0] == entries[0] && r[1..] == st;
      SurvivorsListed(entries[1..], pattern, name);
    }
  }

  /** What `clear_directory` leaves of a listing with distinct names has distinct names. */
  lemma {:induction false} SurvivorsDistinct(entries: seq<DirEntry>, pattern: string)
    requires DistinctNames(entries)
    ensures DistinctNames(Survivors(entries, pattern))
  {
    if entries != [] {
      SurvivorsDistinct(entries[1..], pattern);
      var st := Survivors(entries[1..], pattern);
      if !Cleared(entries[0], pattern) {
        var r := [entries[0]] + st;
        assert r[0] == entries[0] && r[1..] == st;
        if Listed(st, entries[0].name) {
          SurvivorsListed(entries[1..], pattern, entries[0].name);
        }
      }
    }
  }

  /** One step of `clear_directory` over a listing with distinct names: the entry at `i`
      is either unlinked and counted or left, and either way the listing becomes the
      survivors of the first `i + 1` entries followed by the rest. */
  lemma ClearStep(snapshot: seq<DirEntry>, i: nat, pattern: string)
    requires DistinctNames(snapshot) && i < |snapshot|
    ensures var cur := Survivors(snapshot[..i], pattern) + snapshot[i..];
            var next := Survivors(snapshot[..i + 1], pattern) + snapshot[i + 1..];
            && (Cleared(snapshot[i], pattern) ==> RemoveEntry(cur, snapshot[i].name) == next)
            && (!Cleared(snapshot[i], pattern) ==> cur == next)
            && ClearedCount(snapshot[..i + 1], pattern) == ClearedCount(snapshot[..i], pattern) + (if Cleared(snapshot[i], pattern) then 1 else 0)
  {
    var e := snapshot[i];
    ClearSnoc(snapshot, i, pattern);
    var front := Survivors(snapshot[..i], pattern);
    var tail := snapshot[i + 1..];
    assert snapshot[i..] == [e] + tail;
    if Cleared(e, pattern) {
      DistinctSplit(snapshot, i);
      if Listed(front, e.name) {
        SurvivorsListed(snapshot[..i], pattern, e.name);
      }
      RemoveEntryAt(front, [e] + tail, e.name);
      assert ([e] + tail)[1..] == tail;
    } else {
      assert (front + [e]) + tail == front + ([e] + tail);
    }
  }

  /** The survivors and the count of one more entry. */
  lemma ClearSnoc(snapshot: seq<DirEntry>, i: nat, pattern: string)
    requires i < |snapshot|
    ensures Survivors(snapshot[..i + 1], pattern) ==
              Survivors(snapshot[..i], pattern) + (if Cleared(snapshot[i], pattern) then [] else [snapshot[i]])
    ensures ClearedCount(snapshot[..i + 1], pattern) == ClearedCount(snapshot[..i], pattern) + (if Cleared(snapshot[i], pattern) then 1 else 0)
  {
    var e := snapshot[i];
    assert snapshot[..i + 1] == snapshot[..i] + [e];
    SurvivorsConcat(snapshot[..i], [e], pattern);
    ClearedCountConcat(snapshot[..i], [e], pattern);
    assert [e][1..] == [];
    assert Survivors(snapshot[..i], pattern) + [] == Survivors(snapshot[..i], pattern);
  }

  /** At the end of the listing, the loop invariant of `clear_directory` is its result. */
  lemma ClearDone(snapshot: seq<DirEntry>, pattern: string)
    ensures Survivors(snapshot[..|snapshot|], pattern) + snapshot[|snapshot|..] == Survivors(snapshot, pattern)
    ensures ClearedCount(snapshot[..|snapshot|], pattern) == ClearedCount(snapshot, pattern)
  {
    assert snapshot[..|snapshot|] == snapshot && snapshot[|snapshot|..] == [];
    assert Survivors(snapshot, pattern) + [] == Survivors(snapshot, pattern);
  }

  /** No directory lists the same name twice. */
  predicate DistinctListings(m: map<string, seq<DirEntry>>) {
    forall d :: d in m ==> DistinctNames(m[d])
  }

  /** Replacing one listing by one with distinct names keeps every listing distinct. */
  lemma ListingsDistinctSet(m: map<string, seq<DirEntry>>, d: string, listing: seq<DirEntry>)
    requires DistinctListings(m)
    requires DistinctNames(listing)
    ensures DistinctListings(m[d := listing])
  {
  }

  function LookupIn(entries: seq<DirEntry>, name: string): (r: Option<Node>)
    ensures r.Some? <==> Listed(entries, name)
  {
    if entries == [] then None
    else if entries[0].name == name then Some(entries[0].node)
    else LookupIn(entries[1..], name)
  }

  /** A name listed last, and nowhere before, is looked up to its last entry. */
  lemma {:induction false} LookupLast(front: seq<DirEntry>, e: DirEntry)
    requires !Listed(front, e.name)
    ensures LookupIn(front + [e], e.name) == Some(e.node)
  {
    if front != [] {
      assert (front + [e])[1..] == front[1..] + [e];
      LookupLast(front[1..], e);
    } else {
      assert front + [e] == [e];
    }
  }

  /** The glob results of one listing. */
  function GlobIn(d: string, entries: seq<DirEntry>, pattern: string): (r: seq<FilePath>)
    ensures forall p :: p in r ==> p.dir == d && Match(pattern, p.name) && Listed(entries, p.name)
  {
    if entries == [] then []
    else (if Match(pattern, entries[0].name) then [FilePath(d, entries[0].name)] else []) + GlobIn(d, entries[1..], pattern)
  }

  /** Every listed name that matches is among the glob results. */
  lemma {:induction false} GlobInComplete(d: string, entries: seq<DirEntry>, pattern: string, name: string)
    requires Listed(entries, name) && Match(pattern, name)
    ensures FilePath(d, name) in GlobIn(d, entries, pattern)
  {
    if entries[0].name != name {
      GlobInComplete(d, entries[1..], pattern, name);
    }
  }

  /** The listings after `mkdir(parents=True, exist_ok=True)` of `d`: unchanged when `d`
      exists, else with a new empty directory. */
  function WithDirectory(dirs: map<string, seq<DirEntry>>, d: string): (r: map<string, seq<DirEntry>>)
    ensures d in r && r.Keys == dirs.Keys + {d}
    ensures forall k :: k in dirs ==> k in r && r[k] == dirs[k]
  {
    if d in dirs then dirs else dirs[d := []]
  }

  /** The listings after writing `content` to `p`: an existing entry of that name is
      replaced and the new file moves to the end of the listing. */
  function WithFile(dirs: map<string, seq<DirEntry>>, p: FilePath, content: Blob): (r: map<string, seq<DirEntry>>)
    requires p.dir in dirs
    ensures r.Keys == dirs.Keys
    ensures forall k :: k in dirs && k != p.dir ==> r[k] == dirs[k]
  {
    dirs[p.dir := RemoveEntry(dirs[p.dir], p.name) + [DirEntry(p.name, RegularFile(content))]]
  }

  /** The file system: directory path to listing. */
  class Disk {
    var dirs: map<string, seq<DirEntry>>

    predicate Valid()
      reads this
    {
      DistinctListings(dirs)
    }

    constructor (dirs0: map<string, seq<DirEntry>>)
      requires DistinctListings(dirs0)
      ensures Valid() && dirs == dirs0
    {
      dirs := dirs0;
    }

    /** What the path names, if anything. */
    function Lookup(p: FilePath): (r: Option<Node>)
      reads this
      ensures r.Some? <==> p.dir in dirs && Listed(dirs[p.dir], p.name)
    {
      if p.dir !in dirs then None else LookupIn(dirs[p.dir], p.name)
    }

    /** `Path.exists()` for a file path. */
    predicate Exists(p: FilePath)
      reads this
    {
      Lookup(p).Some?
    }

    /** `Path.exists()` for a directory path. */
    predicate DirExists(d: string)
      reads this
    {
      d in dirs
    }

    /** `Path.is_file()`. */
    predicate IsFile(p: FilePath)
      reads this
    {
      Lookup(p).Some? && Lookup(p).value.RegularFile?
    }

    /** `list(directory.glob(pattern))` for a pattern without `/`: the matching entries,
        files and sub-directories alike, in directory order; nothing when the directory
        does not exist. */
    function Glob(d: string, pattern: string): (r: seq<FilePath>)
      reads this
      ensures d !in dirs ==> r == []
      ensures forall p :: p in r ==> p.dir == d && Match(pattern, p.name) && Exists(p)
    {
      if d in dirs then GlobIn(d, dirs[d], pattern) else []
    }

    /** `FileUtils.list_files_by_extension`. */
    function ListFilesByExtension(d: string, extension: string): (r: seq<FilePath>)
      reads this
      ensures !DirExists(d) ==> r == []
    {
      if !DirExists(d) then [] else Glob(d, "*" + extension)
    }

    /** `FileUtils.ensure_directory`: `mkdir(parents=True, exist_ok=True)`. */
    method EnsureDirectory(d: string)
      requires Valid()
      modifies this
      ensures Valid()
      ensures dirs == WithDirectory(old(dirs), d)
    {
      if d !in dirs {
        dirs := dirs[d := []];
      }
    }

    /** Write (or overwrite) the regular file at `p`, in a directory that exists. */
    method WriteFile(p: FilePath, content: Blob)
      requires Valid() && DirExists(p.dir)
      modifies this
      ensures Valid()
      ensures dirs == WithFile(old(dirs), p, content)
      ensures Lookup(p) == Some(RegularFile(content))
    {
      var e := DirEntry(p.name, RegularFile(content));
      var rest := RemoveEntry(dirs[p.dir], p.name);
      RemoveEntryListed(dirs[p.dir], p.name, p.name);
      RemoveEntryDistinct(dirs[p.dir], p.name);
      DistinctAppend(rest, e);
      LookupLast(rest, e);
      ListingsDistinctSet(dirs, p.dir, rest + [e]);
      dirs := dirs[p.dir := rest + [e]];
    }

    /** `FileUtils.delete_file`: a regular file is unlinked and reported; a missing path
        reports false; for a directory `unlink` raises, which is caught and reported as
        false. */
    method DeleteFile(p: FilePath) returns (removed: bool)
      requires Valid()
      modifies this
      ensures Valid()
      ensures removed <==> old(IsFile(p))
      ensures removed ==> dirs == old(dirs)[p.dir := RemoveEntry(old(dirs[p.dir]), p.name)]
      ensures !removed ==> dirs == old(dirs)
      ensures removed ==> !Exists(p)
    {
      if Exists(p) {
        var node := Lookup(p).value;
        if node.RegularFile? {
          var listing := RemoveEntry(dirs[p.dir], p.name);
          RemoveEntryDistinct(dirs[p.dir], p.name);
          RemoveEntryListed(dirs[p.dir], p.name, p.name);
          ListingsDistinctSet(dirs, p.dir, listing);
          dirs := dirs[p.dir := listing];
          return true;
        }
      }
      return false;
    }

    /** `FileUtils.clear_directory`: over the listing taken when `glob` starts, every
        regular file whose name matches is unlinked and counted; sub-directories and
        non-matching files stay. A directory that does not exist yields nothing. */
    method ClearDirectory(d: string, pattern: string) returns (count: nat)
      requires Valid()
      modifies this
      ensures Valid()
      ensures d !in old(dirs) ==> count == 0 && dirs == old(dirs)
      ensures d in old(dirs) ==> count == ClearedCount(old(dirs[d]), pattern)
      ensures d in old(dirs) ==> dirs == old(dirs)[d := Survivors(old(dirs[d]), pattern)]
    {
      count := 0;
      if d !in dirs {
        return;
      }
      var snapshot := dirs[d];
      ghost var before := dirs;
      assert DistinctNames(snapshot);
      var i := 0;
      assert Survivors(snapshot[..0], pattern) + snapshot[0..] == snapshot;
      while i < |snapshot|
        invariant 0 <= i <= |snapshot|
        invariant dirs == before[d := Survivors(snapshot[..i], pattern) + snapshot[i..]]
        invariant count == ClearedCount(snapshot[..i], pattern)
      {
        var e := snapshot[i];
        ClearStep(snapshot, i, pattern);
        if e.node.RegularFile? && Match(pattern, e.name) {
          dirs := dirs[d := RemoveEntry(dirs[d], e.name)];
          count := count + 1;
        }
        i := i + 1;
      }
      ClearDone(snapshot, pattern);
      SurvivorsDistinct(snapshot, pattern);
      ListingsDistinctSet(before, d, Survivors(snapshot, pattern));
    }
  }

  /** `list_files_by_extension(d, ext)` for an extension without wildcards lists exactly
      the existing paths in `d` whose names end with `ext`. */
  lemma ListFilesByExtensionExact(disk: Disk, d: string, extension: string, name: string)
    requires Literal(extension)
    ensures FilePath(d, name) in disk.ListFilesByExtension(d, extension) <==>
              disk.Exists(FilePath(d, name)) && IsSuffix(extension, name)
  {
    MatchStarLiteral(extension, name);
    if disk.Exists(FilePath(d, name)) && IsSuffix(extension, name) {
      GlobInComplete(d, disk.dirs[d], "*" + extension, name);
    }
  }

  /** `FileUtils.normalize_brand_name`: spaces, then hyphens, then slashes become `_`. */
  function NormalizeBrandName(brand: string): string {
    ReplaceChar(ReplaceChar(ReplaceChar(brand, ' ', '_'), '-', '_'), '/', '_')
  }

  /** The result has the input's length, no space, hyphen or slash, and every other
      character where it was. */
  lemma NormalizeBrandNameShape(brand: string)
    ensures var r := NormalizeBrandName(brand);
            && |r| == |brand|
            && ' ' !in r && '-' !in r && '/' !in r
            && (forall i :: 0 <= i < |brand| ==> r[i] == if brand[i] in {' ', '-', '/'} then '_' else brand[i])
  {
    var r := NormalizeBrandName(brand);
    forall i | 0 <= i < |r| ensures r[i] != ' ' && r[i] != '-' && r[i] != '/' { }
  }

  /** Normalising twice is normalising once. */
  lemma NormalizeBrandNameIdempotent(brand: string)
    ensures NormalizeBrandName(NormalizeBrandName(brand)) == NormalizeBrandName(brand)
  {
    var r := NormalizeBrandName(brand);
    NormalizeBrandNameShape(brand);
    NormalizeBrandNameShape(r);
    forall i | 0 <= i < |r| ensures NormalizeBrandName(r)[i] == r[i] { }
  }

  /** Different brands can share a file name. */
  lemma NormalizeBrandNameNotInjective()
    ensures "A B" != "A-B" && NormalizeBrandName("A B") == NormalizeBrandName("A-B") == "A_B"
  {
    NormalizeBrandNameShape("A B");
    NormalizeBrandNameShape("A-B");
    assert NormalizeBrandName("A B") == "A_B";
    assert NormalizeBrandName("A-B") == "A_B";
  }

  /** `PurePath.stem`: the name without its last suffix, where a suffix is a dot that is
      neither the first nor the last character, and what follows it. */
  function Stem(name: string): (r: string)
    ensures IsPrefix(r, name)
  {
    var i := LastIndex(name, '.');
    if 0 < i < |name| - 1 then name[..i] else name
  }

  /** The stem of `s + ".pth"` is `s` unless `s` is empty; the stem of `".pth"` is itself. */
  lemma StemOfPth(s: string)
    ensures Stem(s + ".pth") == if s == [] then ".pth" else s
  {
    var name := s + ".pth";
    assert name[|s|] == '.' && name[|s| + 1] == 'p' && name[|s| + 2] == 't' && name[|s| + 3] == 'h';
    assert LastIndex(name, '.') == |s|;
    assert name[..|s|] == s;
  }
  /** `Path(p)` as a directory and a name: everything before the last `/` and everything
      after it; a path without `/` names an entry of the current directory `.`. */
  function PathOf(p: string): (r: FilePath)
    ensures '/' !in r.name
    ensures '/' in p ==> r.dir + "/" + r.name == p
    ensures '/' !in p ==> r == FilePath(".", p)
  {
    var i := LastIndex(p, '/');
    if i < 0 then FilePath(".", p)
    else
      assert p == p[..i] + "/" + p[i + 1..];
      FilePath(p[..i], p[i + 1..])
  }

  /** Splitting `dir/name` gives back the directory and the name. */
  lemma PathOfJoin(dir: string, name: string)
    requires '/' !in name
    ensures PathOf(dir + "/" + name) == FilePath(dir, name)
  {
    var p := dir + "/" + name;
    var i := LastIndex(p, '/');
    assert p[|dir|] == '/';
    assert i == |dir|;
    assert p[..i] == dir && p[i + 1..] == name;
  }

}
