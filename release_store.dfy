/** The Release Store: the bucket-side version manager of the deployment tool.  Each project owns
    `{project}/builds/{version}/...` (one immutable copy per uploaded artifact) and
    `{project}/current/...` (what the static website serves).  The bucket is an in-memory map
    from object key to object. */
module ReleaseStore {
  import opened Wrappers
  import opened Text
  import opened Ordering

  newtype byte = x: int | 0 <= x < 256

  /** A stored object: its bytes and the two headers the store sets on upload. */
  datatype Obj = Obj(body: seq<byte>, contentType: string, cacheControl: string)

  /** One file of the artifact directory: its path relative to that directory and its bytes. */
  datatype LocalFile = LocalFile(relPath: string, body: seq<byte>)

  datatype UploadInfo = UploadInfo(version: string, uploadedFiles: nat, totalSize: nat, websiteUrl: string)
  datatype ActivationInfo = ActivationInfo(version: string, copiedFiles: nat, websiteUrl: string)
  datatype ProjectStatus = ProjectStatus(isDeployed: bool, websiteUrl: Option<string>, bucket: string, region: string)

  /** The largest number of keys one `delete_objects` request accepts. */
  const BatchLimit: nat := 1000

  const NoFilesError := "Failed to upload files: No files found in build directory"

  // ---------------------------------------------------------------------------------------------
  // Key layout

  function BuildsPrefix(project: string): string { project + "/builds/" }
  function VersionPrefix(project: string, version: string): string { project + "/builds/" + version + "/" }
  function CurrentPrefix(project: string): string { project + "/current/" }

  function WebsiteUrl(bucket: string, region: string, project: string): string
  {
    "http://" + bucket + ".s3-website." + region + ".amazonaws.com/" + project + "/current/"
  }

  /** The version area and the live area of a project never share a key. */
  lemma VersionCurrentDiverge(project: string, version: string)
    ensures Diverge(VersionPrefix(project, version), CurrentPrefix(project))
  {
    var i := |project| + 1;
    assert VersionPrefix(project, version)[i] == 'b';
    assert CurrentPrefix(project)[i] == 'c';
  }

  // ---------------------------------------------------------------------------------------------
  // Header classification

  /** The fallback content-type table, indexed by lower-cased suffix. */
  const ContentTypes: map<string, string> := map[
    ".html" := "text/html; charset=utf-8",
    ".css" := "text/css; charset=utf-8",
    ".js" := "application/javascript; charset=utf-8",
    ".mjs" := "application/javascript; charset=utf-8",
    ".jsx" := "application/javascript; charset=utf-8",
    ".ts" := "application/javascript; charset=utf-8",
    ".tsx" := "application/javascript; charset=utf-8",
    ".json" := "application/json; charset=utf-8",
    ".xml" := "application/xml; charset=utf-8",
    ".txt" := "text/plain; charset=utf-8",
    ".md" := "text/markdown; charset=utf-8",
    ".png" := "image/png",
    ".jpg" := "image/jpeg",
    ".jpeg" := "image/jpeg",
    ".gif" := "image/gif",
    ".svg" := "image/svg+xml",
    ".ico" := "image/x-icon",
    ".webp" := "image/webp",
    ".woff" := "font/woff",
    ".woff2" := "font/woff2",
    ".ttf" := "font/ttf",
    ".eot" := "application/vnd.ms-fontobject"
  ]

  const DefaultContentType := "binary/octet-stream"

  /** Content type of a file: `guess` is what the platform's MIME database says about the path
      (`None` when it knows nothing); the table and then the default are used otherwise. */
  function ContentType(path: string, guess: Option<string>): (r: string)
    ensures guess.Some? && guess.value != "" ==> r == guess.value
    ensures (guess.None? || guess.value == "") && LowerSuffix(path) in ContentTypes ==>
              r == ContentTypes[LowerSuffix(path)]
    ensures (guess.None? || guess.value == "") && LowerSuffix(path) !in ContentTypes ==>
              r == DefaultContentType
  {
    if guess.Some? && guess.value != "" then guess.value
    else if LowerSuffix(path) in ContentTypes then ContentTypes[LowerSuffix(path)]
    else DefaultContentType
  }

  /** Without a MIME guess the type depends only on the suffix, whatever its letter case. */
  lemma ContentTypeCaseInsensitive(a: string, b: string)
    requires LowerSuffix(a) == LowerSuffix(b)
    ensures ContentType(a, None) == ContentType(b, None)
  {
  }

  const ImmutableSuffixes := [".js", ".css", ".png", ".jpg", ".gif", ".svg", ".ico", ".woff", ".woff2", ".ttf"]
  const DataSuffixes := [".json", ".xml", ".txt"]

  const LongCache := "public, max-age=31536000, immutable"
  const NoCache := "public, max-age=0, must-revalidate"
  const ShortCache := "public, max-age=3600"
  const DefaultCache := "public, max-age=86400"

  /** Cache-control directive of a file, chosen by its lower-cased suffix.  Each of the four
      directives is returned for exactly one class of suffixes. */
  function CacheControl(path: string): (r: string)
    ensures r == LongCache <==> LowerSuffix(path) in ImmutableSuffixes
    ensures r == NoCache <==> LowerSuffix(path) == ".html"
    ensures r == ShortCache <==> LowerSuffix(path) in DataSuffixes
    ensures r == DefaultCache <==>
              LowerSuffix(path) !in ImmutableSuffixes && LowerSuffix(path) != ".html" &&
              LowerSuffix(path) !in DataSuffixes
  {
    DirectivesDistinct();
    SuffixClassesDisjoint();
    var suffix := LowerSuffix(path);
    if suffix in ImmutableSuffixes then LongCache
    else if suffix == ".html" then NoCache
    else if suffix in DataSuffixes then ShortCache
    else DefaultCache
  }

  lemma DirectivesDistinct()
    ensures LongCache != NoCache && LongCache != ShortCache && LongCache != DefaultCache
    ensures NoCache != ShortCache && NoCache != DefaultCache && ShortCache != DefaultCache
  {
    assert |LongCache| == 35 && |NoCache| == 34 && |ShortCache| == 20 && |DefaultCache| == 21;
  }

  lemma SuffixClassesDisjoint()
    ensures ".html" !in ImmutableSuffixes && ".html" !in DataSuffixes
    ensures forall s :: s in DataSuffixes ==> s !in ImmutableSuffixes
  {
  }

  /** Suffixes that have a content type of their own but no long cache lifetime. */
  lemma CacheControlDefaults(path: string)
    requires LowerSuffix(path) in [".jpeg", ".webp", ".eot", ".mjs"]
    ensures CacheControl(path) == DefaultCache
  {
    OrdinarySuffix(LowerSuffix(path));
  }

  /** None of these suffixes is in a class of its own. */
  lemma OrdinarySuffix(suffix: string)
    requires suffix in [".jpeg", ".webp", ".eot", ".mjs"]
    ensures suffix !in ImmutableSuffixes && suffix != ".html" && suffix !in DataSuffixes
  {
  }

  // ---------------------------------------------------------------------------------------------
  // Specification of the bucket after each operation

  /** The object key a file is uploaded to. */
  function UploadKey(project: string, version: string, relPath: string): string
  {
    ReplaceChar(VersionPrefix(project, version) + relPath, '\\', '/')
  }

  function StoredObj(f: LocalFile, guess: string -> Option<string>): Obj
  {
    Obj(f.body, ContentType(f.relPath, guess(f.relPath)), CacheControl(f.relPath))
  }

  /** The map after each `(key, object)` write of `writes`, in order. */
  function Puts(m: map<string, Obj>, writes: seq<(string, Obj)>): map<string, Obj>
  {
    if writes == [] then m
    else
      var w := writes[|writes| - 1];
      Puts(m, writes[..|writes| - 1])[w.0 := w.1]
  }

  /** The write each file makes: its key and the object stored there. */
  function Writes(project: string, version: string, files: seq<LocalFile>,
                  guess: string -> Option<string>): (w: seq<(string, Obj)>)
    ensures |w| == |files|
    ensures forall j :: 0 <= j < |files| ==> w[j] == (UploadKey(project, version, files[j].relPath), StoredObj(files[j], guess))
  {
    seq(|files|, j requires 0 <= j < |files| => (UploadKey(project, version, files[j].relPath), StoredObj(files[j], guess)))
  }

  /** The bucket after uploading `files` in order. */
  function Uploaded(m: map<string, Obj>, project: string, version: string, files: seq<LocalFile>,
                    guess: string -> Option<string>): map<string, Obj>
  {
    Puts(m, Writes(project, version, files, guess))
  }

  /** Uploading one more file stores it over what the earlier files left. */
  lemma UploadNext(m: map<string, Obj>, project: string, version: string, files: seq<LocalFile>, n: nat,
                   guess: string -> Option<string>)
    requires n < |files|
    ensures Uploaded(m, project, version, files[..n + 1], guess) ==
            Uploaded(m, project, version, files[..n], guess)[UploadKey(project, version, files[n].relPath) := StoredObj(files[n], guess)]
  {
    var w := Writes(project, version, files[..n + 1], guess);
    assert w[..n] == Writes(project, version, files[..n], guess);
  }

  lemma TotalSizeNext(files: seq<LocalFile>, n: nat)
    requires n < |files|
    ensures TotalSize(files[..n + 1]) == TotalSize(files[..n]) + |files[n].body|
  {
    assert files[..n + 1][..n] == files[..n];
  }

  function TotalSize(files: seq<LocalFile>): nat
  {
    if files == [] then 0 else TotalSize(files[..|files| - 1]) + |files[|files| - 1].body|
  }

  /** The bucket without the keys under `prefix`. */
  function Cleared(m: map<string, Obj>, prefix: string): (r: map<string, Obj>)
  {
    map k | k in m && !StartsWith(k, prefix) :: m[k]
  }

  /** The key under `src` that the key `k` under `dst` is copied from. */
  function SourceKey(k: string, src: string, dst: string): string
    requires |dst| <= |k|
  {
    src + k[|dst|..]
  }

  /** Destination keys of the copies of the keys in `keys` (each under `src`) to `dst`. */
  function CopyTargets(keys: set<string>, src: string, dst: string): set<string>
  {
    set k | k in keys && StartsWith(k, src) :: dst + k[|src|..]
  }

  /** The objects written by copying the keys `keys` of `m` from under `src` to under `dst`. */
  function Copies(m: map<string, Obj>, keys: set<string>, src: string, dst: string): map<string, Obj>
  {
    map k | k in CopyTargets(keys, src, dst) && StartsWith(k, dst) && SourceKey(k, src, dst) in m
      :: m[SourceKey(k, src, dst)]
  }

  /** The bucket after copying everything under `src` to under `dst`. */
  function Copied(m: map<string, Obj>, src: string, dst: string): map<string, Obj>
  {
    m + Copies(m, KeysUnder(m, src), src, dst)
  }

  /** The bucket after activating `version` of `project`: `current/` is cleared, then the
      version's objects are copied into it. */
  function Activated(m: map<string, Obj>, project: string, version: string): map<string, Obj>
  {
    Copied(Cleared(m, CurrentPrefix(project)), VersionPrefix(project, version), CurrentPrefix(project))
  }

  /** Keys directly below the live area and the version area, by relative path. */
  function CurrentKey(project: string, rel: string): string { CurrentPrefix(project) + rel }
  function VersionKey(project: string, version: string, rel: string): string { VersionPrefix(project, version) + rel }

  /** Whether anything is live for `project`. */
  predicate Deployed(m: map<string, Obj>, project: string)
  {
    exists k :: k in m && StartsWith(k, CurrentPrefix(project))
  }

  /** The first `/`-terminated segment of `k` after `prefix` (`k` must contain a `/` there). */
  function Segment(k: string, prefix: string): string
    requires StartsWith(k, prefix)
  {
    k[|prefix|..][..IndexOf(k[|prefix|..], '/')]
  }

  /** The delimiter listing of `prefix` with `/` as delimiter: the distinct `prefix + segment + "/"`. */
  function CommonPrefixes(m: map<string, Obj>, prefix: string): set<string>
  {
    set k | k in m && StartsWith(k, prefix) && '/' in k[|prefix|..] :: prefix + Segment(k, prefix) + "/"
  }

  /** The versions of `project`: the non-empty first-level names under its `builds/` area. */
  function VersionsOf(m: map<string, Obj>, project: string): set<string>
  {
    var bp := BuildsPrefix(project);
    set k | k in m && StartsWith(k, bp) && '/' in k[|bp|..] && Segment(k, bp) != "" :: Segment(k, bp)
  }

  /** The bucket without the keys of the versions in `doomed`. */
  function Pruned(m: map<string, Obj>, project: string, doomed: set<string>): map<string, Obj>
  {
    map k | k in m && !UnderSome(k, project, doomed) :: m[k]
  }

  predicate UnderSome(k: string, project: string, doomed: set<string>)
  {
    exists v :: v in doomed && StartsWith(k, VersionPrefix(project, v))
  }

  lemma ClearedByKeys(m: map<string, Obj>, prefix: string, keys: seq<string>)
    requires Elems(keys) == KeysUnder(m, prefix)
    ensures m - Elems(keys) == Cleared(m, prefix)
  {
  }

  /** Deleting the next batch of a key list extends the deleted prefix of the list. */
  lemma DeleteNext(m: map<string, Obj>, keys: seq<string>, i: nat, j: nat)
    requires i <= j <= |keys|
    ensures m - Elems(keys[..i]) - Elems(keys[i..j]) == m - Elems(keys[..j])
  {
    assert keys[..j] == keys[..i] + keys[i..j];
    ElemsAppend(keys[..i], keys[i..j]);
  }

  /** Copying one more key `x` adds its copy and nothing else. */
  lemma CopiesStep(m: map<string, Obj>, keys: set<string>, x: string, src: string, dst: string)
    requires x in m && StartsWith(x, src)
    ensures Copies(m, keys + {x}, src, dst) == Copies(m, keys, src, dst)[dst + x[|src|..] := m[x]]
  {
    var d := dst + x[|src|..];
    assert d[|dst|..] == x[|src|..];
    assert SourceKey(d, src, dst) == x;
    assert d in CopyTargets(keys + {x}, src, dst);
  }

  /** One iteration of the copy loop: the source key still holds its original object, and
      writing its copy extends the copies made so far by that key. */
  lemma CopyOne(m: map<string, Obj>, keys: set<string>, x: string, src: string, dst: string)
    requires x in m && StartsWith(x, src) && Diverge(src, dst)
    ensures var cur := m + Copies(m, keys, src, dst);
      x in cur && cur[x] == m[x] &&
      cur[dst + x[|src|..] := cur[x]] == m + Copies(m, keys + {x}, src, dst)
  {
    var c := Copies(m, keys, src, dst);
    DivergeExcludes(x, src, dst);
    assert x !in c;
    CopiesStep(m, keys, x, src, dst);
    UpdateUnion(m, c, dst + x[|src|..], m[x]);
  }

  /** The copy loop's step: copying the next listed key extends the copies by that key. */
  lemma CopyNext(m: map<string, Obj>, keys: seq<string>, i: nat, src: string, dst: string)
    requires i < |keys| && keys[i] in m && StartsWith(keys[i], src) && Diverge(src, dst)
    ensures var cur := m + Copies(m, Elems(keys[..i]), src, dst);
      keys[i] in cur && cur[keys[i]] == m[keys[i]] &&
      cur[dst + keys[i][|src|..] := cur[keys[i]]] == m + Copies(m, Elems(keys[..i + 1]), src, dst)
  {
    ElemsNext(keys, i);
    CopyOne(m, Elems(keys[..i]), keys[i], src, dst);
  }

  lemma UpdateUnion(a: map<string, Obj>, b: map<string, Obj>, k: string, v: Obj)
    ensures (a + b)[k := v] == a + b[k := v]
  {
  }

  lemma KeysUnderCleared(m: map<string, Obj>, cleared: string, prefix: string)
    requires Diverge(prefix, cleared)
    ensures KeysUnder(Cleared(m, cleared), prefix) == KeysUnder(m, prefix)
  {
    forall k | k in KeysUnder(m, prefix) ensures k in Cleared(m, cleared) {
      DivergeExcludes(k, prefix, cleared);
    }
  }

  /** The first segment of a key after `prefix` is slash-free and followed by a slash. */
  lemma SegmentShape(k: string, prefix: string)
    requires StartsWith(k, prefix) && '/' in k[|prefix|..]
    ensures '/' !in Segment(k, prefix)
    ensures StartsWith(k, prefix + Segment(k, prefix) + "/")
  {
    var r := k[|prefix|..];
    var i := IndexOf(r, '/');
    assert k[..|prefix| + i + 1] == prefix + r[..i] + "/";
  }

  /** A key under the area of version `v` has `v` as its first segment below `builds/`. */
  lemma SegmentOfVersionKey(k: string, project: string, v: string)
    requires StartsWith(k, VersionPrefix(project, v)) && '/' !in v
    ensures StartsWith(k, BuildsPrefix(project))
    ensures '/' in k[|BuildsPrefix(project)|..] && Segment(k, BuildsPrefix(project)) == v
  {
    var bp := BuildsPrefix(project);
    assert k[..|bp|] == bp by {
      assert VersionPrefix(project, v) == bp + v + "/";
      assert k[..|bp|] == VersionPrefix(project, v)[..|bp|];
    }
    var r := k[|bp|..];
    assert r == v + r[|v|..] && r[|v|] == '/';
    IndexOfPrefix(v, r[|v|..], '/');
  }

  /** The area of a slash-free version name determines the name. */
  lemma VersionPrefixUnique(k: string, project: string, v: string, d: string)
    requires '/' !in v && '/' !in d
    requires StartsWith(k, VersionPrefix(project, v)) && StartsWith(k, VersionPrefix(project, d))
    ensures v == d
  {
    SegmentOfVersionKey(k, project, v);
    SegmentOfVersionKey(k, project, d);
  }

  /** `v` is a version of `project` exactly when it is a non-empty slash-free name with at least
      one object under `{project}/builds/{v}/`. */
  lemma VersionsOfMeaning(m: map<string, Obj>, project: string, v: string)
    ensures v in VersionsOf(m, project) <==>
              v != "" && '/' !in v && exists k :: k in m && StartsWith(k, VersionPrefix(project, v))
  {
    var bp := BuildsPrefix(project);
    if v in VersionsOf(m, project) {
      var k :| k in m && StartsWith(k, bp) && '/' in k[|bp|..] && Segment(k, bp) != "" && Segment(k, bp) == v;
      SegmentShape(k, bp);
      assert bp + v + "/" == VersionPrefix(project, v);
    }
    if v != "" && '/' !in v && exists k :: k in m && StartsWith(k, VersionPrefix(project, v)) {
      var k :| k in m && StartsWith(k, VersionPrefix(project, v));
      SegmentOfVersionKey(k, project, v);
    }
  }

  /** The name `list_versions` derives from one common prefix. */
  function PrefixName(c: string, bp: string): string
    requires StartsWith(c, bp)
  {
    TrimRight(c[|bp|..], '/')
  }

  function PrefixNames(cs: set<string>, bp: string): set<string>
  {
    set c | c in cs && StartsWith(c, bp) && PrefixName(c, bp) != "" :: PrefixName(c, bp)
  }

  /** Every common prefix is `bp`, a slash-free name, then `/`. */
  lemma CommonPrefixShaped(m: map<string, Obj>, bp: string, c: string)
    requires c in CommonPrefixes(m, bp)
    ensures PrefixShaped(c, bp)
  {
    var k :| k in m && StartsWith(k, bp) && '/' in k[|bp|..] && c == bp + Segment(k, bp) + "/";
    SegmentShape(k, bp);
    assert c[|bp|..|c| - 1] == Segment(k, bp);
  }

  /** The listing prefix a key falls in is named by the key's segment. */
  lemma PrefixOfKey(k: string, bp: string)
    requires StartsWith(k, bp) && '/' in k[|bp|..]
    ensures var c := bp + Segment(k, bp) + "/";
            StartsWith(c, bp) && PrefixName(c, bp) == Segment(k, bp)
  {
    var c := bp + Segment(k, bp) + "/";
    SegmentShape(k, bp);
    assert c[|bp|..] == Segment(k, bp) + "/";
    TrimSlash(Segment(k, bp));
  }

  /** The non-empty names of the common prefixes under `builds/` are the versions. */
  lemma PrefixNamesAreVersions(m: map<string, Obj>, project: string)
    ensures PrefixNames(CommonPrefixes(m, BuildsPrefix(project)), BuildsPrefix(project)) == VersionsOf(m, project)
  {
    var bp := BuildsPrefix(project);
    var cs := CommonPrefixes(m, bp);
    forall v | v in PrefixNames(cs, bp) ensures v in VersionsOf(m, project) {
      var c :| c in cs && StartsWith(c, bp) && PrefixName(c, bp) != "" && PrefixName(c, bp) == v;
      var k :| k in m && StartsWith(k, bp) && '/' in k[|bp|..] && c == bp + Segment(k, bp) + "/";
      PrefixOfKey(k, bp);
    }
    forall v | v in VersionsOf(m, project) ensures v in PrefixNames(cs, bp) {
      var k :| k in m && StartsWith(k, bp) && '/' in k[|bp|..] && Segment(k, bp) != "" && Segment(k, bp) == v;
      PrefixOfKey(k, bp);
      assert bp + Segment(k, bp) + "/" in cs;
    }
  }

  /** A delimiter-listing prefix: `bp`, then a slash-free name, then `/`. */
  predicate PrefixShaped(c: string, bp: string)
  {
    StartsWith(c, bp) && |c| > |bp| && c[|c| - 1] == '/' && '/' !in c[|bp|..|c| - 1]
  }

  /** Distinct listing prefixes have distinct names. */
  lemma ShapedInjective(c: string, d: string, bp: string)
    requires PrefixShaped(c, bp) && PrefixShaped(d, bp) && PrefixName(c, bp) == PrefixName(d, bp)
    ensures c == d
  {
    assert c[|bp|..] == c[|bp|..|c| - 1] + "/";
    assert d[|bp|..] == d[|bp|..|d| - 1] + "/";
    TrimSlash(c[|bp|..|c| - 1]);
    TrimSlash(d[|bp|..|d| - 1]);
    assert c == bp + c[|bp|..|c| - 1] + "/";
    assert d == bp + d[|bp|..|d| - 1] + "/";
  }

  /** One iteration of the version listing: a common prefix not yet seen contributes its name,
      which is new, or nothing when the name is empty. */
  lemma ListStep(bp: string, done: set<string>, c: string, found: seq<string>)
    requires PrefixShaped(c, bp) && c !in done
    requires forall d :: d in done ==> PrefixShaped(d, bp)
    requires Distinct(found) && Elems(found) == PrefixNames(done, bp)
    ensures PrefixName(c, bp) != "" ==>
              Distinct(found + [PrefixName(c, bp)]) &&
              Elems(found + [PrefixName(c, bp)]) == PrefixNames(done + {c}, bp)
    ensures PrefixName(c, bp) == "" ==> PrefixNames(done + {c}, bp) == PrefixNames(done, bp)
  {
    var v := PrefixName(c, bp);
    if v != "" {
      forall d | d in done && StartsWith(d, bp) && PrefixName(d, bp) == v ensures false {
        ShapedInjective(c, d, bp);
      }
      assert v !in Elems(found);
      ElemsAppend(found, [v]);
    }
  }

  /** The non-empty names of the common prefixes of a delimiter listing, each once. */
  method VersionNames(prefixes: set<string>, buildsPrefix: string) returns (found: seq<string>)
    requires forall c :: c in prefixes ==> PrefixShaped(c, buildsPrefix)
    ensures Distinct(found) && Elems(found) == PrefixNames(prefixes, buildsPrefix)
  {
    var rest := prefixes;
    ghost var done: set<string> := {};
    found := [];
    while rest != {}
      invariant done + rest == prefixes && done !! rest
      invariant Distinct(found)
      invariant Elems(found) == PrefixNames(done, buildsPrefix)
      decreases |rest|
    {
      var prefix :| prefix in rest;
      ListStep(buildsPrefix, done, prefix, found);
      var version := prefix[|buildsPrefix|..];
      version := TrimRight(version, '/');
      if version != "" {
        found := found + [version];
      }
      rest := rest - {prefix};
      done := done + {prefix};
    }
  }

  /** Clearing one more version area extends the pruned set by that version. */
  lemma PruneStep(m: map<string, Obj>, project: string, doomed: set<string>, v: string)
    ensures Cleared(Pruned(m, project, doomed), VersionPrefix(project, v)) == Pruned(m, project, doomed + {v})
  {
    forall k | k in m && StartsWith(k, VersionPrefix(project, v)) ensures UnderSome(k, project, doomed + {v}) {
      assert v in doomed + {v};
    }
  }

  lemma PruneNext(m: map<string, Obj>, project: string, doomed: seq<string>, i: nat)
    requires i < |doomed|
    ensures Cleared(Pruned(m, project, Elems(doomed[..i])), VersionPrefix(project, doomed[i])) ==
            Pruned(m, project, Elems(doomed[..i + 1]))
  {
    PruneStep(m, project, Elems(doomed[..i]), doomed[i]);
    ElemsNext(doomed, i);
  }

  lemma PrunedNothing(m: map<string, Obj>, project: string)
    ensures Pruned(m, project, {}) == m
  {
  }

  /** The in-memory bucket: its name, region and objects. */
  class Bucket {
    const name: string
    const region: string
    var objects: map<string, Obj>

    constructor (name: string, region: string, objects: map<string, Obj>)
      ensures this.name == name && this.region == region && this.objects == objects
    {
      this.name := name;
      this.region := region;
      this.objects := objects;
    }

    /** The paginated `list_objects_v2` listing of `prefix`: every key under it, ascending. */
    method ListKeys(prefix: string) returns (keys: seq<string>)
      ensures keys == SortedSet(KeysUnder(objects, prefix))
    {
      keys := SortSet(KeysUnder(objects, prefix));
    }

    /** One `delete_objects` request. */
    method DeleteObjects(batch: seq<string>)
      requires |batch| <= BatchLimit
      modifies this
      ensures objects == old(objects) - Elems(batch)
    {
      objects := objects - Elems(batch);
    }

    /** Deletes every key under `prefix`, at most `BatchLimit` keys per request. */
    method ClearPrefix(prefix: string)
      modifies this
      ensures objects == Cleared(old(objects), prefix)
    {
      var keys := ListKeys(prefix);
      ClearedByKeys(objects, prefix, keys);
      DeleteKeys(keys);
    }

    /** The batch loop of `ClearPrefix`: deletes `keys` in requests of at most `BatchLimit`. */
    method DeleteKeys(keys: seq<string>)
      modifies this
      ensures objects == old(objects) - Elems(keys)
    {
      ghost var m0 := objects;
      var i := 0;
      while i < |keys|
        invariant 0 <= i <= |keys|
        invariant objects == m0 - Elems(keys[..i])
      {
        var j := if i + BatchLimit < |keys| then i + BatchLimit else |keys|;
        DeleteNext(m0, keys, i, j);
        DeleteObjects(keys[i..j]);
        i := j;
      }
      assert keys[..i] == keys;
    }

    /** Copies every object under `src` to the same relative key under `dst`, keeping its
        headers, and counts the copies.  The two prefixes never overlap where it is used. */
    method CopyPrefix(src: string, dst: string) returns (copied: nat)
      requires Diverge(src, dst)
      modifies this
      ensures objects == Copied(old(objects), src, dst)
      ensures copied == |KeysUnder(old(objects), src)|
    {
      var keys := ListKeys(src);
      assert Elems(keys) == KeysUnder(objects, src) && |keys| == |KeysUnder(objects, src)|;
      CopyKeys(keys, src, dst);
      copied := |keys|;
    }

    /** The copy loop of `CopyPrefix`: copies the listed keys one by one. */
    method CopyKeys(keys: seq<string>, src: string, dst: string)
      requires forall k :: k in Elems(keys) ==> k in objects && StartsWith(k, src)
      requires Diverge(src, dst)
      modifies this
      ensures objects == old(objects) + Copies(old(objects), Elems(keys), src, dst)
    {
      ghost var m0 := objects;
      var i := 0;
      while i < |keys|
        invariant i <= |keys|
        invariant objects == m0 + Copies(m0, Elems(keys[..i]), src, dst)
      {
        var sourceKey := keys[i];
        assert sourceKey in Elems(keys);
        CopyNext(m0, keys, i, src, dst);
        var destKey := dst + sourceKey[|src|..];
        objects := objects[destKey := objects[sourceKey]];
        i := i + 1;
      }
      assert keys[..i] == keys;
    }

    /** Makes `version` live: empties `current/`, then copies the version into it. */
    method ActivateVersion(project: string, version: string) returns (info: ActivationInfo)
      modifies this
      ensures objects == Activated(old(objects), project, version)
      ensures info == ActivationInfo(version, |KeysUnder(old(objects), VersionPrefix(project, version))|,
                                     WebsiteUrl(name, region, project))
    {
      var sourcePrefix := VersionPrefix(project, version);
      var currentPrefix := CurrentPrefix(project);
      ClearPrefix(currentPrefix);
      VersionCurrentDiverge(project, version);
      var copied := CopyPrefix(sourcePrefix, currentPrefix);
      KeysUnderCleared(old(objects), currentPrefix, sourcePrefix);
      info := ActivationInfo(version, copied, WebsiteUrl(name, region, project));
    }

    /** The versions of `project`, newest (lexicographically greatest) first. */
    method ListVersions(project: string) returns (versions: seq<string>)
      ensures versions == SortedSetDesc(VersionsOf(objects, project))
    {
      var buildsPrefix := BuildsPrefix(project);
      forall c | c in CommonPrefixes(objects, buildsPrefix) ensures PrefixShaped(c, buildsPrefix) {
        CommonPrefixShaped(objects, buildsPrefix, c);
      }
      var found := VersionNames(CommonPrefixes(objects, buildsPrefix), buildsPrefix);
      PrefixNamesAreVersions(objects, project);
      SortDescDistinct(found);
      versions := Reverse(SortAsc(found));
    }

    /** `get_project_status`: deployed exactly when something is under `current/`; the website
        address is reported only then. */
    function Status(project: string): (s: ProjectStatus)
      reads this
      ensures s.isDeployed <==> KeysUnder(objects, CurrentPrefix(project)) != {}
      ensures s.websiteUrl == (if s.isDeployed then Some(WebsiteUrl(name, region, project)) else None)
      ensures s.bucket == name && s.region == region
    {
      var deployed := Deployed(objects, project);
      ProjectStatus(deployed, if deployed then Some(WebsiteUrl(name, region, project)) else None, name, region)
    }

    /** Deletes every version but the `keep` greatest, and returns how many it deleted. */
    method CleanupOldVersions(project: string, keep: nat) returns (deleted: nat)
      modifies this
      ensures var versions := SortedSetDesc(VersionsOf(old(objects), project));
        if |versions| <= keep then deleted == 0 && objects == old(objects)
        else deleted == |versions| - keep && objects == Pruned(old(objects), project, Elems(versions[keep..]))
    {
      var versions := ListVersions(project);
      if |versions| <= keep {
        return 0;
      }
      deleted := DeleteVersions(project, versions[keep..]);
    }

    /** The delete loop of `CleanupOldVersions`: clears each doomed version's area in turn and
        counts the versions deleted. */
    method DeleteVersions(project: string, doomed: seq<string>) returns (deleted: nat)
      modifies this
      ensures deleted == |doomed| && objects == Pruned(old(objects), project, Elems(doomed))
    {
      ghost var m0 := objects;
      PrunedNothing(m0, project);
      deleted := 0;
      for i := 0 to |doomed|
        invariant deleted == i
        invariant objects == Pruned(m0, project, Elems(doomed[..i]))
      {
        PruneNext(m0, project, doomed, i);
        ClearPrefix(VersionPrefix(project, doomed[i]));
        deleted := deleted + 1;
      }
      assert doomed[..|doomed|] == doomed;
    }

    /** Uploads the artifact files under `{project}/builds/{version}/` with their headers.
        `guess` is the platform's MIME guess for a path. */
    method DeployVersion(project: string, version: string, files: seq<LocalFile>,
                         guess: string -> Option<string>) returns (r: Result<UploadInfo>)
      modifies this
      ensures files == [] ==> r == Err(NoFilesError) && objects == old(objects)
      ensures files != [] ==>
                r == Ok(UploadInfo(version, |files|, TotalSize(files), WebsiteUrl(name, region, project))) &&
                objects == Uploaded(old(objects), project, version, files, guess)
    {
      if files == [] {
        return Err(NoFilesError);
      }
      var versionPrefix := VersionPrefix(project, version);
      var uploaded := 0;
      var totalSize := 0;
      while uploaded < |files|
        invariant uploaded <= |files|
        invariant totalSize == TotalSize(files[..uploaded])
        invariant objects == Uploaded(old(objects), project, version, files[..uploaded], guess)
      {
        var f := files[uploaded];
        var key := ReplaceChar(versionPrefix + f.relPath, '\\', '/');
        var contentType := ContentType(f.relPath, guess(f.relPath));
        var cacheControl := CacheControl(f.relPath);
        UploadNext(old(objects), project, version, files, uploaded, guess);
        TotalSizeNext(files, uploaded);
        objects := objects[key := Obj(f.body, contentType, cacheControl)];
        uploaded := uploaded + 1;
        totalSize := totalSize + |f.body|;
      }
      assert files[..uploaded] == files;
      r := Ok(UploadInfo(version, uploaded, totalSize, WebsiteUrl(name, region, project)));
    }
  }

  // ---------------------------------------------------------------------------------------------
  // Properties of activation

  /** After activation, `current/{rel}` exists exactly when `builds/{version}/{rel}` did, and holds
      a copy of it (bytes and headers). */
  lemma ActivatedMirrorsVersion(m: map<string, Obj>, project: string, version: string, rel: string)
    ensures CurrentKey(project, rel) in Activated(m, project, version) <==> VersionKey(project, version, rel) in m
    ensures VersionKey(project, version, rel) in m ==>
              Activated(m, project, version)[CurrentKey(project, rel)] == m[VersionKey(project, version, rel)]
  {
    var src := VersionPrefix(project, version);
    var cur := CurrentPrefix(project);
    var c := Cleared(m, cur);
    var ck := CurrentKey(project, rel);
    var vk := VersionKey(project, version, rel);
    VersionCurrentDiverge(project, version);
    assert StartsWith(vk, src);
    DivergeExcludes(vk, src, cur);
    assert StartsWith(ck, cur) && ck !in c;
    assert ck[|cur|..] == rel && vk[|src|..] == rel;
    assert SourceKey(ck, src, cur) == vk;
    if vk in m {
      assert vk in KeysUnder(c, src);
      assert ck in CopyTargets(KeysUnder(c, src), src, cur);
    }
  }

  /** Activation leaves every key outside `current/` as it was. */
  lemma ActivatedElsewhere(m: map<string, Obj>, project: string, version: string, k: string)
    requires !StartsWith(k, CurrentPrefix(project))
    ensures k in Activated(m, project, version) <==> k in m
    ensures k in m ==> Activated(m, project, version)[k] == m[k]
  {
  }

  /** Activating the same version twice is the same as activating it once. */
  lemma ActivateIdempotent(m: map<string, Obj>, project: string, version: string)
    ensures Activated(Activated(m, project, version), project, version) == Activated(m, project, version)
  {
    var a := Activated(m, project, version);
    var a2 := Activated(a, project, version);
    forall k ensures (k in a2 <==> k in a) && (k in a ==> a2[k] == a[k]) {
      ActivateIdempotentAt(m, project, version, k);
    }
  }

  lemma ActivateIdempotentAt(m: map<string, Obj>, project: string, version: string, k: string)
    ensures var a := Activated(m, project, version);
      var a2 := Activated(a, project, version);
      (k in a2 <==> k in a) && (k in a ==> a2[k] == a[k])
  {
    var a := Activated(m, project, version);
    var cur := CurrentPrefix(project);
    if StartsWith(k, cur) {
      var rel := k[|cur|..];
      assert k == CurrentKey(project, rel);
      var vk := VersionKey(project, version, rel);
      VersionCurrentDiverge(project, version);
      assert StartsWith(vk, VersionPrefix(project, version));
      DivergeExcludes(vk, VersionPrefix(project, version), cur);
      ActivatedMirrorsVersion(a, project, version, rel);
      ActivatedMirrorsVersion(m, project, version, rel);
      ActivatedElsewhere(m, project, version, vk);
    } else {
      ActivatedElsewhere(a, project, version, k);
      ActivatedElsewhere(m, project, version, k);
    }
  }

  /** Activating a listed version leaves the project deployed. */
  lemma ActivateListedDeploys(m: map<string, Obj>, project: string, version: string)
    requires version in VersionsOf(m, project)
    ensures Deployed(Activated(m, project, version), project)
  {
    VersionsOfMeaning(m, project, version);
    var src := VersionPrefix(project, version);
    var k :| k in m && StartsWith(k, src);
    var rel := k[|src|..];
    assert VersionKey(project, version, rel) == k;
    ActivatedMirrorsVersion(m, project, version, rel);
    assert StartsWith(CurrentKey(project, rel), CurrentPrefix(project));
  }

  /** Activating a version that has no objects takes the site down: the reason the rollback
      command only accepts listed versions. */
  lemma ActivateEmptyUndeploys(m: map<string, Obj>, project: string, version: string)
    requires KeysUnder(m, VersionPrefix(project, version)) == {}
    ensures !Deployed(Activated(m, project, version), project)
  {
  }

  lemma ShiftInjective(x: string, y: string, src: string, dst: string)
    requires StartsWith(x, src) && StartsWith(y, src) && dst + x[|src|..] == dst + y[|src|..]
    ensures x == y
  {
    assert (dst + x[|src|..])[|dst|..] == x[|src|..];
    assert (dst + y[|src|..])[|dst|..] == y[|src|..];
    assert x == src + x[|src|..] && y == src + y[|src|..];
  }

  /** Shifting keys from one prefix to another keeps their number. */
  lemma {:induction false} ShiftCard(keys: set<string>, src: string, dst: string)
    requires forall k :: k in keys ==> StartsWith(k, src)
    ensures |CopyTargets(keys, src, dst)| == |keys|
    decreases |keys|
  {
    if keys != {} {
      var x :| x in keys;
      var rest := keys - {x};
      ShiftCard(rest, src, dst);
      assert CopyTargets(keys, src, dst) == CopyTargets(rest, src, dst) + {dst + x[|src|..]};
      forall y | y in rest && dst + y[|src|..] == dst + x[|src|..] ensures false {
        ShiftInjective(x, y, src, dst);
      }
    }
  }

  /** After activation `current/` holds as many objects as the version, which is the count
      activation reports. */
  lemma ActivatedCount(m: map<string, Obj>, project: string, version: string)
    ensures |KeysUnder(Activated(m, project, version), CurrentPrefix(project))| ==
            |KeysUnder(m, VersionPrefix(project, version))|
  {
    var src := VersionPrefix(project, version);
    var cur := CurrentPrefix(project);
    var a := Activated(m, project, version);
    var under := KeysUnder(m, src);
    VersionCurrentDiverge(project, version);
    forall k | k in KeysUnder(a, cur) ensures k in CopyTargets(under, src, cur) {
      var rel := k[|cur|..];
      assert k == CurrentKey(project, rel);
      ActivatedMirrorsVersion(m, project, version, rel);
      var vk := VersionKey(project, version, rel);
      assert vk in under && vk[|src|..] == rel;
    }
    forall k | k in CopyTargets(under, src, cur) ensures k in KeysUnder(a, cur) {
      var x :| x in under && StartsWith(x, src) && k == cur + x[|src|..];
      var rel := x[|src|..];
      assert k == CurrentKey(project, rel) && x == VersionKey(project, version, rel);
      ActivatedMirrorsVersion(m, project, version, rel);
    }
    assert KeysUnder(a, cur) == CopyTargets(under, src, cur);
    ShiftCard(under, src, cur);
  }

  // ---------------------------------------------------------------------------------------------
  // Properties of cleanup

  /** Pruning slash-free versions removes exactly those versions from the listing. */
  lemma PrunedVersions(m: map<string, Obj>, project: string, doomed: set<string>)
    requires forall d :: d in doomed ==> '/' !in d
    ensures VersionsOf(Pruned(m, project, doomed), project) == VersionsOf(m, project) - doomed
  {
    var p := Pruned(m, project, doomed);
    forall v ensures v in VersionsOf(p, project) <==> v in VersionsOf(m, project) - doomed {
      VersionsOfMeaning(p, project, v);
      VersionsOfMeaning(m, project, v);
      if v in VersionsOf(p, project) {
        var k :| k in p && StartsWith(k, VersionPrefix(project, v));
        assert v !in doomed;
      }
      if v in VersionsOf(m, project) - doomed {
        var k :| k in m && StartsWith(k, VersionPrefix(project, v));
        forall d | d in doomed && StartsWith(k, VersionPrefix(project, d)) ensures false {
          VersionPrefixUnique(k, project, v, d);
        }
        assert k in p;
      }
    }
  }

  /** Pruning versions never touches a key outside `builds/`, in particular `current/`. */
  lemma PrunedOutsideBuilds(m: map<string, Obj>, project: string, doomed: set<string>, k: string)
    requires !StartsWith(k, BuildsPrefix(project))
    ensures k in Pruned(m, project, doomed) <==> k in m
    ensures k in m ==> Pruned(m, project, doomed)[k] == m[k]
  {
  }

  lemma PrunedKeepsCurrent(m: map<string, Obj>, project: string, doomed: set<string>)
    ensures KeysUnder(Pruned(m, project, doomed), CurrentPrefix(project)) == KeysUnder(m, CurrentPrefix(project))
    ensures Deployed(Pruned(m, project, doomed), project) == Deployed(m, project)
  {
    var cur := CurrentPrefix(project);
    forall k | StartsWith(k, cur)
      ensures k in Pruned(m, project, doomed) <==> k in m
    {
      assert k[|project| + 1] == 'c';
      assert !StartsWith(k, BuildsPrefix(project)) by {
        assert BuildsPrefix(project)[|project| + 1] == 'b';
      }
      PrunedOutsideBuilds(m, project, doomed, k);
    }
  }

  /** Cleanup with more than `keep` versions leaves exactly the `keep` greatest ones, each
      greater than every deleted one. */
  lemma CleanupKeepsNewest(m: map<string, Obj>, project: string, keep: nat)
    requires |SortedSetDesc(VersionsOf(m, project))| > keep
    ensures var versions := SortedSetDesc(VersionsOf(m, project));
      var after := Pruned(m, project, Elems(versions[keep..]));
      VersionsOf(after, project) == Elems(versions[..keep]) &&
      |VersionsOf(after, project)| == keep &&
      forall a, b :: a in VersionsOf(after, project) && b in Elems(versions[keep..]) ==> Below(b, a)
  {
    var versions := SortedSetDesc(VersionsOf(m, project));
    var doomed := Elems(versions[keep..]);
    forall d | d in doomed ensures '/' !in d {
      VersionsOfMeaning(m, project, d);
    }
    PrunedVersions(m, project, doomed);
    SplitDescending(versions, keep);
  }

  /** Cleanup does not protect the live version: if the activated version is among those
      deleted, the site stays up while its version disappears from the listing. */
  lemma ActiveVersionNotProtected(m: map<string, Obj>, project: string, version: string, doomed: set<string>)
    requires version in VersionsOf(m, project) && version in doomed
    requires forall d :: d in doomed ==> '/' !in d
    ensures var after := Pruned(Activated(m, project, version), project, doomed);
      Deployed(after, project) && version !in VersionsOf(after, project)
  {
    var a := Activated(m, project, version);
    ActivateListedDeploys(m, project, version);
    PrunedKeepsCurrent(a, project, doomed);
    PrunedVersions(a, project, doomed);
  }

  // ---------------------------------------------------------------------------------------------
  // Properties of upload

  /** With backslash-free project and version names, the upload key is the version area followed
      by the relative path with its backslashes turned into slashes. */
  lemma UploadKeyShape(project: string, version: string, relPath: string)
    requires '\\' !in project && '\\' !in version
    ensures UploadKey(project, version, relPath) == VersionKey(project, version, ReplaceChar(relPath, '\\', '/'))
    ensures '\\' !in UploadKey(project, version, relPath)
  {
    var vp := VersionPrefix(project, version);
    assert forall i :: 0 <= i < |vp| ==> vp[i] != '\\';
  }

  /** Each file is stored at its key unless a later file has the same key. */
  lemma UploadedStores(m: map<string, Obj>, project: string, version: string,
                       files: seq<LocalFile>, guess: string -> Option<string>, i: nat)
    requires i < |files|
    requires forall j :: i < j < |files| ==>
               UploadKey(project, version, files[j].relPath) != UploadKey(project, version, files[i].relPath)
    ensures UploadKey(project, version, files[i].relPath) in Uploaded(m, project, version, files, guess)
    ensures Uploaded(m, project, version, files, guess)[UploadKey(project, version, files[i].relPath)] ==
            StoredObj(files[i], guess)
  {
    PutsStores(m, Writes(project, version, files, guess), i);
  }

  /** A write lands unless a later write goes to the same key. */
  lemma {:induction false} PutsStores(m: map<string, Obj>, writes: seq<(string, Obj)>, i: nat)
    requires i < |writes|
    requires forall j :: i < j < |writes| ==> writes[j].0 != writes[i].0
    ensures writes[i].0 in Puts(m, writes) && Puts(m, writes)[writes[i].0] == writes[i].1
    decreases |writes|
  {
    if i < |writes| - 1 {
      var init := writes[..|writes| - 1];
      assert init[i] == writes[i];
      assert forall j :: i < j < |init| ==> init[j] == writes[j];
      PutsStores(m, init, i);
    }
  }

  /** A key that no write goes to keeps its object. */
  lemma {:induction false} PutsElsewhere(m: map<string, Obj>, writes: seq<(string, Obj)>, k: string)
    requires forall j :: 0 <= j < |writes| ==> writes[j].0 != k
    ensures k in Puts(m, writes) <==> k in m
    ensures k in m ==> Puts(m, writes)[k] == m[k]
    decreases |writes|
  {
    if writes != [] {
      var init := writes[..|writes| - 1];
      assert forall j :: 0 <= j < |init| ==> init[j] == writes[j];
      PutsElsewhere(m, init, k);
    }
  }

  /** A key that no file is uploaded to keeps its object. */
  lemma UploadedElsewhere(m: map<string, Obj>, project: string, version: string,
                          files: seq<LocalFile>, guess: string -> Option<string>, k: string)
    requires forall j :: 0 <= j < |files| ==> UploadKey(project, version, files[j].relPath) != k
    ensures k in Uploaded(m, project, version, files, guess) <==> k in m
    ensures k in m ==> Uploaded(m, project, version, files, guess)[k] == m[k]
  {
    PutsElsewhere(m, Writes(project, version, files, guess), k);
  }

  /** Upload only writes inside `{project}/builds/{version}/`. */
  lemma UploadTouchesOnlyVersion(m: map<string, Obj>, project: string, version: string,
                                 files: seq<LocalFile>, guess: string -> Option<string>, k: string)
    requires '\\' !in project && '\\' !in version
    requires !StartsWith(k, VersionPrefix(project, version))
    ensures k in Uploaded(m, project, version, files, guess) <==> k in m
    ensures k in m ==> Uploaded(m, project, version, files, guess)[k] == m[k]
  {
    forall j | 0 <= j < |files| ensures UploadKey(project, version, files[j].relPath) != k {
      UploadKeyShape(project, version, files[j].relPath);
    }
    UploadedElsewhere(m, project, version, files, guess, k);
  }

  /** A non-empty upload of a slash-free version name makes that version listed. */
  lemma UploadListsVersion(m: map<string, Obj>, project: string, version: string,
                           files: seq<LocalFile>, guess: string -> Option<string>)
    requires files != [] && version != "" && '/' !in version
    requires '\\' !in project && '\\' !in version
    ensures version in VersionsOf(Uploaded(m, project, version, files, guess), project)
  {
    var u := Uploaded(m, project, version, files, guess);
    var last := |files| - 1;
    UploadedStores(m, project, version, files, guess, last);
    var key := UploadKey(project, version, files[last].relPath);
    UploadKeyShape(project, version, files[last].relPath);
    assert StartsWith(key, VersionPrefix(project, version));
    VersionsOfMeaning(u, project, version);
  }
}
