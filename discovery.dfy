/** The deployment discovery service of the monitoring stack.  Each cycle lists the top-level
    prefixes of the bucket the deployment tool writes, keeps the projects that have something
    under `{project}/current/`, describes each one (URL, object count, total size, framework),
    and, when the set of project names differs from the previous cycle, rewrites the Prometheus
    target list and the Grafana variables. */
module Discovery {
  import opened Wrappers
  import opened Text
  import opened Ordering
  import opened ReleaseStore

  // ---------------------------------------------------------------------------------------------
  // Framework heuristic

  datatype Framework = React | NextJs | Angular | Vue | Static | Unknown

  /** The label value written for a framework. */
  function FrameworkName(f: Framework): string
  {
    match f
    case React => "react"
    case NextJs => "nextjs"
    case Angular => "angular"
    case Vue => "vue"
    case Static => "static"
    case Unknown => "unknown"
  }

  /** Some file name (the text after the last `/` of a key) contains "chunk". */
  predicate HasChunk(keys: seq<string>)
  {
    exists k :: k in keys && Contains(LastPart(k, '/'), "chunk")
  }

  predicate HasScript(keys: seq<string>)
  {
    exists k :: k in keys && EndsWith(LastPart(k, '/'), ".js")
  }

  /** Some full key, directories included, contains "_next". */
  predicate HasNext(keys: seq<string>)
  {
    exists k :: k in keys && Contains(k, "_next")
  }

  /** Some file name is `{stem}*.js`. */
  predicate HasEntry(keys: seq<string>, stem: string)
  {
    exists k :: k in keys && StartsWith(LastPart(k, '/'), stem) && EndsWith(LastPart(k, '/'), ".js")
  }

  /** The framework of a listing: the first test that holds wins. */
  function DetectFramework(keys: seq<string>): (f: Framework)
    ensures f != Unknown
  {
    if HasChunk(keys) && HasScript(keys) then React
    else if HasNext(keys) then NextJs
    else if HasEntry(keys, "main.") then Angular
    else if HasEntry(keys, "app.") then Vue
    else Static
  }

  /** The heuristic looks at the keys as a set: their order and repetitions do not matter. */
  lemma FrameworkOfSameKeys(a: seq<string>, b: seq<string>)
    requires Elems(a) == Elems(b)
    ensures DetectFramework(a) == DetectFramework(b)
  {
    SameTests(a, b);
    SameTests(b, a);
  }

  /** Each test that holds of `a` holds of any listing with at least its keys. */
  lemma SameTests(a: seq<string>, b: seq<string>)
    requires Elems(a) <= Elems(b)
    ensures HasChunk(a) ==> HasChunk(b)
    ensures HasScript(a) ==> HasScript(b)
    ensures HasNext(a) ==> HasNext(b)
    ensures HasEntry(a, "main.") ==> HasEntry(b, "main.")
    ensures HasEntry(a, "app.") ==> HasEntry(b, "app.")
  {
    if HasChunk(a) { ChunkMore(a, b); }
    if HasScript(a) { ScriptMore(a, b); }
    if HasNext(a) { NextMore(a, b); }
    if HasEntry(a, "main.") { EntryMore(a, b, "main."); }
    if HasEntry(a, "app.") { EntryMore(a, b, "app."); }
  }

  /** Adding files never turns a recognised framework back into a plain static site. */
  lemma FrameworkSurvivesMoreFiles(a: seq<string>, b: seq<string>)
    requires Elems(a) <= Elems(b) && DetectFramework(a) != Static
    ensures DetectFramework(b) != Static
  {
    SameTests(a, b);
  }

  lemma Widen(a: seq<string>, b: seq<string>)
    requires Elems(a) <= Elems(b)
    ensures forall k :: k in a ==> k in b
  {
    assert forall k :: k in a ==> k in Elems(a);
    assert forall k :: k in Elems(b) ==> k in b;
  }

  lemma ChunkMore(a: seq<string>, b: seq<string>)
    requires Elems(a) <= Elems(b) && HasChunk(a)
    ensures HasChunk(b)
  {
    Widen(a, b);
    var k :| k in a && Contains(LastPart(k, '/'), "chunk");
    assert k in b;
  }

  lemma ScriptMore(a: seq<string>, b: seq<string>)
    requires Elems(a) <= Elems(b) && HasScript(a)
    ensures HasScript(b)
  {
    Widen(a, b);
    var k :| k in a && EndsWith(LastPart(k, '/'), ".js");
    assert k in b;
  }

  lemma NextMore(a: seq<string>, b: seq<string>)
    requires Elems(a) <= Elems(b) && HasNext(a)
    ensures HasNext(b)
  {
    Widen(a, b);
    var k :| k in a && Contains(k, "_next");
    assert k in b;
  }

  lemma EntryMore(a: seq<string>, b: seq<string>, stem: string)
    requires Elems(a) <= Elems(b) && HasEntry(a, stem)
    ensures HasEntry(b, stem)
  {
    Widen(a, b);
    var k :| k in a && StartsWith(LastPart(k, '/'), stem) && EndsWith(LastPart(k, '/'), ".js");
    assert k in b;
  }

  /** Without any `.js` file name only the directory test can name a framework. */
  lemma NoScriptsNoBundler(keys: seq<string>)
    requires forall k :: k in keys ==> !EndsWith(LastPart(k, '/'), ".js")
    ensures DetectFramework(keys) == NextJs || DetectFramework(keys) == Static
  {
  }

  /** A key's file name is what follows its last `/`. */
  lemma FileNameOfKey(dir: string, name: string)
    requires '/' !in name
    ensures LastPart(dir + "/" + name, '/') == name
  {
    LastIndexAfter(dir, name, '/');
  }

  /** "chunk" in a directory name (Next.js keeps its bundles under `_next/static/chunks/`)
      does not make a listing React: only file names are searched for it. */
  lemma ChunkDirectoryIgnored(dir: string, name: string)
    requires '/' !in name && !Contains(name, "chunk")
    ensures DetectFramework([dir + "/" + name]) != React
  {
    FileNameOfKey(dir, name);
    var k := dir + "/" + name;
    assert forall x :: x in [k] ==> x == k;
  }

  /** A file below a `_next` directory marks a Next.js build, unless its name holds "chunk". */
  lemma NextDirectoryDetected(dir: string, name: string)
    requires Contains(dir, "_next") && '/' !in name && !Contains(name, "chunk")
    ensures DetectFramework([dir + "/" + name]) == NextJs
  {
    ChunkDirectoryIgnored(dir, name);
    ContainsAppend(dir, "/" + name, "_next");
    assert dir + ("/" + name) == dir + "/" + name;
    assert (dir + "/" + name) in [dir + "/" + name];
  }

  // ---------------------------------------------------------------------------------------------
  // Deployment records

  /** What one `_get_deployment_info` call reports; `lastModified` is the text of a clock
      reading, taken as an input. */
  datatype Deployment = Deployment(project: string, url: string, fileCount: nat, totalSize: nat,
                                   lastModified: string, framework: Framework, monitorType: string)

  /** Where the S3 calls of one cycle fail: the top-level listing after delivering some prefixes,
      the one-key probe of some projects, the detail listing of some projects. */
  datatype Faults = Faults(listedBeforeError: Option<nat>, probeFails: set<string>, infoFails: set<string>)

  /** The most keys one unpaginated `list_objects_v2` response holds. */
  const PageSize: nat := 1000

  function FirstPage(keys: seq<string>): (r: seq<string>)
    ensures |r| == if |keys| <= PageSize then |keys| else PageSize
    ensures r == keys[..|r|]
  {
    if |keys| <= PageSize then keys else keys[..PageSize]
  }

  /** `sum(obj['Size'] for obj in contents)` */
  function SizeOf(m: map<string, Obj>, keys: seq<string>): nat
    requires forall i :: 0 <= i < |keys| ==> keys[i] in m
  {
    if |keys| == 0 then 0 else SizeOf(m, keys[..|keys| - 1]) + |m[keys[|keys| - 1]].body|
  }

  /** The keys one detail listing of the live area returns: the smallest `PageSize` of them. */
  ghost function Listing(m: map<string, Obj>, project: string): seq<string>
  {
    FirstPage(SortedSet(KeysUnder(m, CurrentPrefix(project))))
  }

  lemma ListingLive(m: map<string, Obj>, project: string)
    ensures var l := Listing(m, project);
            forall i :: 0 <= i < |l| ==> l[i] in m && StartsWith(l[i], CurrentPrefix(project))
  {
    var all := SortedSet(KeysUnder(m, CurrentPrefix(project)));
    forall i | 0 <= i < |all| ensures all[i] in KeysUnder(m, CurrentPrefix(project)) {
      assert all[i] in Elems(all);
    }
  }

  /** The detail listing holds the live keys in ascending order: all of them when there are at
      most `PageSize`, otherwise the `PageSize` smallest. */
  lemma ListingMeaning(m: map<string, Obj>, project: string)
    ensures var live := KeysUnder(m, CurrentPrefix(project));
            var l := Listing(m, project);
            && |l| == (if |live| <= PageSize then |live| else PageSize)
            && StrictlyAscending(l)
            && Elems(l) <= live
            && (|live| <= PageSize ==> Elems(l) == live)
            && forall k, i :: k in live && k !in Elems(l) && 0 <= i < |l| ==> Below(l[i], k)
  {
    var live := KeysUnder(m, CurrentPrefix(project));
    var all := SortedSet(live);
    var l := Listing(m, project);
    assert forall i :: 0 <= i < |l| ==> l[i] == all[i];
    forall k | k in Elems(l) ensures k in live {
      var i :| 0 <= i < |l| && l[i] == k;
      assert all[i] in Elems(all);
    }
    forall k, i | k in live && k !in Elems(l) && 0 <= i < |l| ensures Below(l[i], k) {
      assert k in Elems(all);
      var j :| 0 <= j < |all| && all[j] == k;
      assert forall q :: 0 <= q < |l| ==> l[q] in Elems(l);
      assert j >= |l|;
    }
  }

  /** What `_get_deployment_info` returns for `project`. */
  ghost function Info(m: map<string, Obj>, bucketName: string, region: string, project: string,
                      infoFails: set<string>, stamp: string): Deployment
  {
    var url := WebsiteUrl(bucketName, region, project);
    if project in infoFails then Deployment(project, url, 0, 0, stamp, Unknown, "website")
    else
      ListingLive(m, project);
      var listed := Listing(m, project);
      Deployment(project, url, |listed|, SizeOf(m, listed), stamp, DetectFramework(listed), "website")
  }

  /** `_has_current_deployment`: the one-key probe of `{project}/current/` finds an object. */
  predicate Probe(m: map<string, Obj>, project: string, probeFails: set<string>)
  {
    project !in probeFails && Deployed(m, project)
  }

  /** How many of `n` top-level prefixes the paginator delivers before it raises. */
  function Delivered(n: nat, listedBeforeError: Option<nat>): (r: nat)
    ensures r <= n
    ensures listedBeforeError.None? ==> r == n
  {
    if listedBeforeError.Some? && listedBeforeError.value < n then listedBeforeError.value else n
  }

  /** What one top-level prefix contributes: its deployment, if the project is live. */
  ghost function Found(m: map<string, Obj>, bucketName: string, region: string, prefix: string,
                       faults: Faults, stamp: string -> string): seq<Deployment>
  {
    var name := TrimRight(prefix, '/');
    if name != "" && Probe(m, name, faults.probeFails)
    then [Info(m, bucketName, region, name, faults.infoFails, stamp(name))]
    else []
  }

  /** The deployments found among `prefixes`, in listing order. */
  ghost function Scan(m: map<string, Obj>, bucketName: string, region: string, prefixes: seq<string>,
                      faults: Faults, stamp: string -> string): (ds: seq<Deployment>)
    ensures |ds| <= |prefixes|
    decreases |prefixes|
  {
    if |prefixes| == 0 then []
    else
      Scan(m, bucketName, region, prefixes[..|prefixes| - 1], faults, stamp) +
      Found(m, bucketName, region, prefixes[|prefixes| - 1], faults, stamp)
  }

  /** Scanning one more prefix appends what that prefix contributes. */
  lemma ScanStep(m: map<string, Obj>, bucketName: string, region: string, prefixes: seq<string>, i: nat,
                 faults: Faults, stamp: string -> string)
    requires i < |prefixes|
    ensures Scan(m, bucketName, region, prefixes[..i + 1], faults, stamp) ==
            Scan(m, bucketName, region, prefixes[..i], faults, stamp) +
            Found(m, bucketName, region, prefixes[i], faults, stamp)
  {
    assert prefixes[..i + 1][..i] == prefixes[..i];
  }

  /** Each found deployment is the description of a live project with a non-empty name. */
  lemma {:induction false} ScanRecords(m: map<string, Obj>, bucketName: string, region: string,
                                       prefixes: seq<string>, faults: Faults, stamp: string -> string)
    ensures var ds := Scan(m, bucketName, region, prefixes, faults, stamp);
            forall d :: d in ds ==>
              && d.project != ""
              && Probe(m, d.project, faults.probeFails)
              && d == Info(m, bucketName, region, d.project, faults.infoFails, stamp(d.project))
    decreases |prefixes|
  {
    if |prefixes| > 0 {
      ScanRecords(m, bucketName, region, prefixes[..|prefixes| - 1], faults, stamp);
    }
  }

  /** What `discover_deployments` returns for the bucket contents `m`. */
  ghost function Discovered(m: map<string, Obj>, bucketName: string, region: string, faults: Faults,
                            stamp: string -> string): seq<Deployment>
  {
    var prefixes := SortedSet(CommonPrefixes(m, ""));
    Scan(m, bucketName, region, prefixes[..Delivered(|prefixes|, faults.listedBeforeError)], faults, stamp)
  }

  /** `{dep['project'] for dep in deployments}` */
  function ProjectsOf(ds: seq<Deployment>): set<string>
  {
    set d | d in ds :: d.project
  }

  lemma ProjectsOfAppend(a: seq<Deployment>, b: seq<Deployment>)
    ensures ProjectsOf(a + b) == ProjectsOf(a) + ProjectsOf(b)
  {
    assert forall d :: d in a + b <==> d in a || d in b;
  }

  lemma FoundProjects(m: map<string, Obj>, bucketName: string, region: string, prefix: string,
                      faults: Faults, stamp: string -> string)
    ensures var name := TrimRight(prefix, '/');
            ProjectsOf(Found(m, bucketName, region, prefix, faults, stamp)) ==
            if name != "" && Probe(m, name, faults.probeFails) then {name} else {}
  {
    var name := TrimRight(prefix, '/');
    if name != "" && Probe(m, name, faults.probeFails) {
      var d := Info(m, bucketName, region, name, faults.infoFails, stamp(name));
      assert Found(m, bucketName, region, prefix, faults, stamp) == [d];
      assert d.project == name;
    }
  }

  /** Some prefix of the list strips to the name `p`. */
  predicate NamedIn(prefixes: seq<string>, p: string)
  {
    exists i :: 0 <= i < |prefixes| && TrimRight(prefixes[i], '/') == p
  }

  lemma NamedInStep(prefixes: seq<string>, p: string)
    requires |prefixes| > 0
    ensures NamedIn(prefixes, p) <==>
            NamedIn(prefixes[..|prefixes| - 1], p) || TrimRight(prefixes[|prefixes| - 1], '/') == p
  {
    var init := prefixes[..|prefixes| - 1];
    if NamedIn(prefixes, p) {
      var i :| 0 <= i < |prefixes| && TrimRight(prefixes[i], '/') == p;
      if i < |init| {
        assert TrimRight(init[i], '/') == p;
      }
    }
    if NamedIn(init, p) {
      var i :| 0 <= i < |init| && TrimRight(init[i], '/') == p;
      assert TrimRight(prefixes[i], '/') == p;
    }
  }

  lemma {:induction false} ScanProjects(m: map<string, Obj>, bucketName: string, region: string,
                                        prefixes: seq<string>, faults: Faults, stamp: string -> string, p: string)
    ensures p in ProjectsOf(Scan(m, bucketName, region, prefixes, faults, stamp)) <==>
            p != "" && Probe(m, p, faults.probeFails) && NamedIn(prefixes, p)
    decreases |prefixes|
  {
    if |prefixes| > 0 {
      var init := prefixes[..|prefixes| - 1];
      var last := prefixes[|prefixes| - 1];
      var rest := Scan(m, bucketName, region, init, faults, stamp);
      var found := Found(m, bucketName, region, last, faults, stamp);
      assert Scan(m, bucketName, region, prefixes, faults, stamp) == rest + found;
      ScanProjects(m, bucketName, region, init, faults, stamp, p);
      FoundProjects(m, bucketName, region, last, faults, stamp);
      ProjectsOfAppend(rest, found);
      NamedInStep(prefixes, p);
    }
  }

  /** A top-level prefix names a project without a `/`, and stripping the slash gives it. */
  lemma TopPrefixShape(m: map<string, Obj>, c: string)
    requires c in CommonPrefixes(m, "")
    ensures '/' !in TrimRight(c, '/') && c == TrimRight(c, '/') + "/"
  {
    var k :| k in m && StartsWith(k, "") && '/' in k[|""|..] && c == "" + Segment(k, "") + "/";
    SegmentShape(k, "");
    var seg := Segment(k, "");
    assert c == seg + "/";
    TrimSlash(seg);
  }

  /** A project with something live and a slash-free name has a top-level prefix. */
  lemma LiveProjectPrefix(m: map<string, Obj>, p: string)
    requires '/' !in p && Deployed(m, p)
    ensures p + "/" in CommonPrefixes(m, "")
  {
    var k :| k in m && StartsWith(k, CurrentPrefix(p));
    assert k == p + k[|p|..];
    assert k[|p|..][0] == '/';
    IndexOfPrefix(p, k[|p|..], '/');
    assert k[|""|..] == k;
    assert '/' in k[|""|..] by { assert k[|p|] == '/'; }
    assert Segment(k, "") == p;
    assert p + "/" == "" + Segment(k, "") + "/";
  }

  /** A project is discovered only if its name is non-empty and slash-free, its probe succeeds and
      something is live under `{project}/current/`. */
  lemma DiscoveredAreLive(m: map<string, Obj>, bucketName: string, region: string, faults: Faults,
                          stamp: string -> string, p: string)
    requires p in ProjectsOf(Discovered(m, bucketName, region, faults, stamp))
    ensures p != "" && '/' !in p && p !in faults.probeFails && Deployed(m, p)
  {
    var all := SortedSet(CommonPrefixes(m, ""));
    var seen := all[..Delivered(|all|, faults.listedBeforeError)];
    assert Discovered(m, bucketName, region, faults, stamp) == Scan(m, bucketName, region, seen, faults, stamp);
    ScanProjects(m, bucketName, region, seen, faults, stamp, p);
    var i :| 0 <= i < |seen| && TrimRight(seen[i], '/') == p;
    assert seen[i] in Elems(all);
    TopPrefixShape(m, seen[i]);
  }

  /** When the top-level listing does not fail, every live project with a non-empty, slash-free
      name whose probe succeeds is discovered. */
  lemma LiveAreDiscovered(m: map<string, Obj>, bucketName: string, region: string, faults: Faults,
                          stamp: string -> string, p: string)
    requires faults.listedBeforeError.None?
    requires p != "" && '/' !in p && p !in faults.probeFails && Deployed(m, p)
    ensures p in ProjectsOf(Discovered(m, bucketName, region, faults, stamp))
  {
    CompleteListing(m, bucketName, region, faults, stamp);
    LiveProjectNamed(m, p);
    ScanProjects(m, bucketName, region, SortedSet(CommonPrefixes(m, "")), faults, stamp, p);
  }

  /** When the top-level listing does not fail, every top-level prefix is scanned. */
  lemma CompleteListing(m: map<string, Obj>, bucketName: string, region: string, faults: Faults,
                        stamp: string -> string)
    requires faults.listedBeforeError.None?
    ensures Discovered(m, bucketName, region, faults, stamp) ==
            Scan(m, bucketName, region, SortedSet(CommonPrefixes(m, "")), faults, stamp)
  {
    var all := SortedSet(CommonPrefixes(m, ""));
    assert all[..Delivered(|all|, faults.listedBeforeError)] == all;
  }

  /** A live project with a slash-free name is named by some top-level prefix. */
  lemma LiveProjectNamed(m: map<string, Obj>, p: string)
    requires '/' !in p && Deployed(m, p)
    ensures NamedIn(SortedSet(CommonPrefixes(m, "")), p)
  {
    var all := SortedSet(CommonPrefixes(m, ""));
    LiveProjectPrefix(m, p);
    assert p + "/" in Elems(all);
    var i :| 0 <= i < |all| && all[i] == p + "/";
    TrimSlash(p);
    assert TrimRight(all[i], '/') == p;
  }

  /** With a complete top-level listing, a live project's record is among the discovered ones. */
  lemma LiveRecordDiscovered(m: map<string, Obj>, bucketName: string, region: string, faults: Faults,
                             stamp: string -> string, p: string)
    requires faults.listedBeforeError.None?
    requires p != "" && '/' !in p && p !in faults.probeFails && Deployed(m, p)
    ensures Info(m, bucketName, region, p, faults.infoFails, stamp(p)) in Discovered(m, bucketName, region, faults, stamp)
  {
    LiveAreDiscovered(m, bucketName, region, faults, stamp, p);
    var all := SortedSet(CommonPrefixes(m, ""));
    var ds := Discovered(m, bucketName, region, faults, stamp);
    CompleteListing(m, bucketName, region, faults, stamp);
    ScanRecords(m, bucketName, region, all, faults, stamp);
    var d :| d in ds && d.project == p;
  }

  /** A project whose detail listing succeeds and fits in one page is reported with its full
      live object count. */
  lemma InfoCount(m: map<string, Obj>, bucketName: string, region: string, p: string,
                  infoFails: set<string>, stamp: string)
    requires p !in infoFails && |KeysUnder(m, CurrentPrefix(p))| <= PageSize
    ensures var d := Info(m, bucketName, region, p, infoFails, stamp);
            d.fileCount == |KeysUnder(m, CurrentPrefix(p))| && d.url == WebsiteUrl(bucketName, region, p)
  {
    ListingMeaning(m, p);
  }

  /** Activating a version of at most `PageSize` objects makes the next cycle report the project
      with exactly the version's object count, the count the activation itself reports. */
  lemma ActivationIsDiscovered(m: map<string, Obj>, bucketName: string, region: string, project: string,
                               version: string, faults: Faults, stamp: string -> string)
    requires version in VersionsOf(m, project)
    requires |KeysUnder(m, VersionPrefix(project, version))| <= PageSize
    requires project != "" && '/' !in project
    requires faults.listedBeforeError.None? && project !in faults.probeFails && project !in faults.infoFails
    ensures var ds := Discovered(Activated(m, project, version), bucketName, region, faults, stamp);
            exists d :: d in ds && d.project == project &&
                        d.fileCount == |KeysUnder(m, VersionPrefix(project, version))| &&
                        d.url == WebsiteUrl(bucketName, region, project)
  {
    var a := Activated(m, project, version);
    ActivateListedDeploys(m, project, version);
    LiveRecordDiscovered(a, bucketName, region, faults, stamp, project);
    ActivatedCount(m, project, version);
    InfoCount(a, bucketName, region, project, faults.infoFails, stamp(project));
    var d := Info(a, bucketName, region, project, faults.infoFails, stamp(project));
    assert d.project == project;
  }

  // ---------------------------------------------------------------------------------------------
  // Target and variable records

  /** One entry of the Prometheus file-discovery list. */
  datatype Target = Target(targets: seq<string>, labels: map<string, string>)

  datatype Variables = Variables(projects: seq<string>, frameworks: seq<string>, totalDeployments: nat,
                                 lastUpdated: string, deployments: seq<Deployment>)

  /** A file the service writes: never written, holding a document, or left empty by a
      `'w'` open whose `json.dump` raised. */
  datatype FileState<T> = Unwritten | Holds(content: T) | Truncated

  /** How a write raises: `open` fails before the file is touched, or `json.dump` fails after
      the `'w'` open has emptied it. */
  datatype WriteFault = OpenFails | DumpFails

  /** The write of a cycle that raises: the targets file, its timestamped backup (not modelled
      as a file) or the variables file. */
  datatype CycleFault = TargetsWrite(how: WriteFault) | BackupWrite | VariablesWrite(how: WriteFault)

  /** The file after writing `content` to it, when the write may raise. */
  function AfterWrite<T>(before: FileState<T>, content: T, fault: Option<WriteFault>): FileState<T>
  {
    match fault
    case None => Holds(content)
    case Some(OpenFails) => before
    case Some(DumpFails) => Truncated
  }

  function TargetOf(d: Deployment): Target
  {
    Target([d.url], map["project" := d.project,
                        "framework" := FrameworkName(d.framework),
                        "environment" := "production",
                        "monitor_type" := d.monitorType,
                        "auto_discovered" := "true",
                        "last_modified" := d.lastModified])
  }

  /** The target list: one target per deployment, in the deployments' order. */
  function Targets(ds: seq<Deployment>): (ts: seq<Target>)
    ensures |ts| == |ds|
    ensures forall i :: 0 <= i < |ds| ==> ts[i] == TargetOf(ds[i])
  {
    if |ds| == 0 then [] else Targets(ds[..|ds| - 1]) + [TargetOf(ds[|ds| - 1])]
  }

  const LabelNames: set<string> :=
    {"project", "framework", "environment", "monitor_type", "auto_discovered", "last_modified"}

  /** The target of a website record probes the project's website and carries the six labels,
      with the fixed environment and discovery flag. */
  lemma WebsiteTarget(d: Deployment, bucketName: string, region: string)
    requires d.url == WebsiteUrl(bucketName, region, d.project) && d.monitorType == "website"
    ensures var t := TargetOf(d);
            && t.labels.Keys == LabelNames
            && t.targets == [WebsiteUrl(bucketName, region, t.labels["project"])]
            && t.labels["monitor_type"] == "website"
            && t.labels["environment"] == "production"
            && t.labels["auto_discovered"] == "true"
  {
  }

  /** The project labels of a target list are the projects of its deployments. */
  lemma TargetProjects(ds: seq<Deployment>)
    ensures (set t | t in Targets(ds) :: t.labels["project"]) == ProjectsOf(ds)
  {
    var ts := Targets(ds);
    forall p | p in ProjectsOf(ds) ensures p in (set t | t in ts :: t.labels["project"]) {
      var d :| d in ds && d.project == p;
      var i :| 0 <= i < |ds| && ds[i] == d;
      assert ts[i] in ts;
    }
  }

  /** Every discovered record describes the website of its project. */
  lemma DiscoveredWebsites(m: map<string, Obj>, bucketName: string, region: string, faults: Faults,
                           stamp: string -> string)
    ensures forall d :: d in Discovered(m, bucketName, region, faults, stamp) ==>
              d.url == WebsiteUrl(bucketName, region, d.project) && d.monitorType == "website"
  {
    var all := SortedSet(CommonPrefixes(m, ""));
    var seen := all[..Delivered(|all|, faults.listedBeforeError)];
    assert Discovered(m, bucketName, region, faults, stamp) == Scan(m, bucketName, region, seen, faults, stamp);
    ScanRecords(m, bucketName, region, seen, faults, stamp);
  }

  /** The targets of website records: each probes its project's website and carries the six
      labels with the fixed values. */
  lemma WebsiteTargets(ds: seq<Deployment>, bucketName: string, region: string)
    requires forall d :: d in ds ==> d.url == WebsiteUrl(bucketName, region, d.project) && d.monitorType == "website"
    ensures forall t :: t in Targets(ds) ==>
              && t.labels.Keys == LabelNames
              && t.targets == [WebsiteUrl(bucketName, region, t.labels["project"])]
              && t.labels["monitor_type"] == "website"
              && t.labels["environment"] == "production"
              && t.labels["auto_discovered"] == "true"
  {
    var ts := Targets(ds);
    forall t | t in ts
      ensures t.labels.Keys == LabelNames
      ensures t.targets == [WebsiteUrl(bucketName, region, t.labels["project"])]
      ensures t.labels["monitor_type"] == "website"
      ensures t.labels["environment"] == "production"
      ensures t.labels["auto_discovered"] == "true"
    {
      var i :| 0 <= i < |ts| && ts[i] == t;
      assert ds[i] in ds;
      WebsiteTarget(ds[i], bucketName, region);
    }
  }

  /** Every discovered project has exactly its target, which probes the project's website and
      carries its name, and no other target is written. */
  lemma DiscoveredTargets(m: map<string, Obj>, bucketName: string, region: string, faults: Faults,
                          stamp: string -> string)
    ensures var ds := Discovered(m, bucketName, region, faults, stamp);
            var ts := Targets(ds);
            && (forall t :: t in ts ==>
                  && t.labels.Keys == LabelNames
                  && t.targets == [WebsiteUrl(bucketName, region, t.labels["project"])]
                  && t.labels["monitor_type"] == "website"
                  && t.labels["environment"] == "production"
                  && t.labels["auto_discovered"] == "true")
            && (set t | t in ts :: t.labels["project"]) == ProjectsOf(ds)
  {
    var ds := Discovered(m, bucketName, region, faults, stamp);
    DiscoveredWebsites(m, bucketName, region, faults, stamp);
    WebsiteTargets(ds, bucketName, region);
    TargetProjects(ds);
  }

  /** `[dep['project'] for dep in deployments]` */
  function ProjectList(ds: seq<Deployment>): (ps: seq<string>)
    ensures |ps| == |ds| && forall i :: 0 <= i < |ds| ==> ps[i] == ds[i].project
  {
    seq(|ds|, i requires 0 <= i < |ds| => ds[i].project)
  }

  function FrameworkNames(ds: seq<Deployment>): set<string>
  {
    set d | d in ds :: FrameworkName(d.framework)
  }

  /** The Grafana variables of a list of deployments, stamped with the time `now`. */
  ghost function VariablesOf(ds: seq<Deployment>, now: string): Variables
  {
    Variables(SortAsc(ProjectList(ds)), SortedSet(FrameworkNames(ds)), |ds|, now, ds)
  }

  /** The project variable lists every project once per deployment, ascending; the framework
      variable lists each framework in use once, ascending; the total is the deployment count. */
  lemma VariablesMeaning(ds: seq<Deployment>, now: string)
    ensures var v := VariablesOf(ds, now);
            && Ascending(v.projects) && multiset(v.projects) == multiset(ProjectList(ds))
            && StrictlyAscending(v.frameworks)
            && (forall f :: f in v.frameworks <==> exists d :: d in ds && FrameworkName(d.framework) == f)
            && v.totalDeployments == |ds|
  {
    SortAscAscending(ProjectList(ds));
    var fs := SortedSet(FrameworkNames(ds));
    forall f ensures f in fs <==> f in FrameworkNames(ds) {
      assert f in fs <==> f in Elems(fs);
    }
  }

  // ---------------------------------------------------------------------------------------------
  // The service

  class DiscoveryService {
    const bucket: Bucket
    /** The project names seen by the last cycle that completed its update. */
    var previousDeployments: set<string>
    /** `auto_discovered_websites.json` */
    var targetsFile: FileState<seq<Target>>
    /** `grafana_variables.json` */
    var variablesFile: FileState<Variables>
    /** The `discovered_deployments_total` gauge. */
    var discoveredGauge: nat
    /** The `discovery_errors_total` counter. */
    var errors: nat
    /** Reload requests sent to Prometheus. */
    var reloads: nat

    constructor (bucket: Bucket)
      ensures this.bucket == bucket && previousDeployments == {}
      ensures targetsFile == Unwritten && variablesFile == Unwritten
      ensures discoveredGauge == 0 && errors == 0 && reloads == 0
    {
      this.bucket := bucket;
      previousDeployments := {};
      targetsFile := Unwritten;
      variablesFile := Unwritten;
      discoveredGauge := 0;
      errors := 0;
      reloads := 0;
    }

    method GetDeploymentInfo(project: string, infoFails: set<string>, stamp: string -> string)
      returns (d: Deployment)
      ensures d == Info(bucket.objects, bucket.name, bucket.region, project, infoFails, stamp(project))
    {
      var url := WebsiteUrl(bucket.name, bucket.region, project);
      if project in infoFails {
        d := Deployment(project, url, 0, 0, stamp(project), Unknown, "website");
      } else {
        var keys := bucket.ListKeys(CurrentPrefix(project));
        var listed := FirstPage(keys);
        ListingLive(bucket.objects, project);
        d := Deployment(project, url, |listed|, SizeOf(bucket.objects, listed), stamp(project),
                        DetectFramework(listed), "website");
      }
    }

    method DiscoverDeployments(faults: Faults, stamp: string -> string) returns (deployments: seq<Deployment>)
      ensures deployments == Discovered(bucket.objects, bucket.name, bucket.region, faults, stamp)
    {
      var prefixes := SortSet(CommonPrefixes(bucket.objects, ""));
      var n := Delivered(|prefixes|, faults.listedBeforeError);
      deployments := ScanPrefixes(prefixes[..n], faults, stamp);
    }

    /** The loop of `discover_deployments` over the delivered top-level prefixes. */
    method ScanPrefixes(prefixes: seq<string>, faults: Faults, stamp: string -> string)
      returns (deployments: seq<Deployment>)
      ensures deployments == Scan(bucket.objects, bucket.name, bucket.region, prefixes, faults, stamp)
    {
      deployments := [];
      var i := 0;
      while i < |prefixes|
        invariant i <= |prefixes|
        invariant deployments == Scan(bucket.objects, bucket.name, bucket.region, prefixes[..i], faults, stamp)
      {
        ScanStep(bucket.objects, bucket.name, bucket.region, prefixes, i, faults, stamp);
        var found := FindDeployment(prefixes[i], faults, stamp);
        deployments := deployments + found;
        i := i + 1;
      }
      assert prefixes[..i] == prefixes;
    }

    /** One iteration: a live project behind `prefix` yields its description. */
    method FindDeployment(prefix: string, faults: Faults, stamp: string -> string) returns (found: seq<Deployment>)
      ensures found == Found(bucket.objects, bucket.name, bucket.region, prefix, faults, stamp)
    {
      var name := TrimRight(prefix, '/');
      if name != "" && Probe(bucket.objects, name, faults.probeFails) {
        var d := GetDeploymentInfo(name, faults.infoFails, stamp);
        found := [d];
      } else {
        found := [];
      }
    }

    /** Writes the target list; `raised` says that the targets write or the backup write
        raised. The targets file is written before the backup. */
    method UpdatePrometheusTargets(deployments: seq<Deployment>, targetsFault: Option<WriteFault>,
                                   backupFails: bool)
      returns (raised: bool)
      modifies this`targetsFile
      ensures raised <==> targetsFault.Some? || backupFails
      ensures targetsFile == AfterWrite(old(targetsFile), Targets(deployments), targetsFault)
    {
      var targets: seq<Target> := [];
      var i := 0;
      while i < |deployments|
        invariant i <= |deployments|
        invariant targets == Targets(deployments[..i])
      {
        assert deployments[..i + 1][..i] == deployments[..i];
        targets := targets + [TargetOf(deployments[i])];
        i := i + 1;
      }
      assert deployments[..i] == deployments;
      targetsFile := AfterWrite(targetsFile, targets, targetsFault);
      raised := targetsFault.Some? || backupFails;
    }

    /** Writes the variables, stamped with `now`; `raised` says that the write raised. */
    method UpdateGrafanaVariables(deployments: seq<Deployment>, now: string, fault: Option<WriteFault>)
      returns (raised: bool)
      modifies this`variablesFile
      ensures raised <==> fault.Some?
      ensures variablesFile == AfterWrite(old(variablesFile), VariablesOf(deployments, now), fault)
    {
      var projects := SortAsc(ProjectList(deployments));
      var frameworks := SortSet(FrameworkNames(deployments));
      variablesFile := AfterWrite(variablesFile, Variables(projects, frameworks, |deployments|, now, deployments), fault);
      raised := fault.Some?;
    }

    /** One cycle. When the set of project names differs from the snapshot, both files are
        rewritten and a reload is requested; only then, and only when no write raised, do the
        snapshot and the gauge follow. A raising write skips the rest of the cycle and counts
        an error, so the next cycle sees the same change again. */
    method DiscoverAndUpdate(faults: Faults, stamp: string -> string, now: string, fault: Option<CycleFault>)
      modifies this
      ensures var ds := Discovered(bucket.objects, bucket.name, bucket.region, faults, stamp);
              var changed := ProjectsOf(ds) != old(previousDeployments);
              && (!changed || fault.None? ==>
                    previousDeployments == ProjectsOf(ds) && discoveredGauge == |ds| && errors == old(errors))
              && (!changed ==>
                    targetsFile == old(targetsFile) && variablesFile == old(variablesFile) && reloads == old(reloads))
              && (changed && fault.None? ==>
                    targetsFile == Holds(Targets(ds)) && variablesFile == Holds(VariablesOf(ds, now)) &&
                    reloads == old(reloads) + 1)
              && (changed && fault.Some? ==>
                    && previousDeployments == old(previousDeployments) && discoveredGauge == old(discoveredGauge)
                    && reloads == old(reloads) && errors == old(errors) + 1
                    && targetsFile == (if fault.value.TargetsWrite?
                                       then AfterWrite(old(targetsFile), Targets(ds), Some(fault.value.how))
                                       else Holds(Targets(ds)))
                    && variablesFile == (if fault.value.VariablesWrite?
                                         then AfterWrite(old(variablesFile), VariablesOf(ds, now), Some(fault.value.how))
                                         else old(variablesFile)))
    {
      var deployments := DiscoverDeployments(faults, stamp);
      var current := ProjectsOf(deployments);
      if current != previousDeployments {
        var raised := PublishChange(deployments, now, fault);
        if raised {
          errors := errors + 1;
          return;
        }
      }
      discoveredGauge := |deployments|;
    }

    /** The branch of a cycle that saw a change: write the targets, then the variables, request
        a reload and take the new snapshot. A raising write stops the branch there. */
    method PublishChange(deployments: seq<Deployment>, now: string, fault: Option<CycleFault>)
      returns (raised: bool)
      modifies this`targetsFile, this`variablesFile, this`reloads, this`previousDeployments
      ensures raised <==> fault.Some?
      ensures !raised ==>
                && targetsFile == Holds(Targets(deployments))
                && variablesFile == Holds(VariablesOf(deployments, now))
                && reloads == old(reloads) + 1 && previousDeployments == ProjectsOf(deployments)
      ensures raised ==>
                && reloads == old(reloads) && previousDeployments == old(previousDeployments)
                && targetsFile == (if fault.value.TargetsWrite?
                                   then AfterWrite(old(targetsFile), Targets(deployments), Some(fault.value.how))
                                   else Holds(Targets(deployments)))
                && variablesFile == (if fault.value.VariablesWrite?
                                     then AfterWrite(old(variablesFile), VariablesOf(deployments, now), Some(fault.value.how))
                                     else old(variablesFile))
    {
      var targetsFault := if fault.Some? && fault.value.TargetsWrite? then Some(fault.value.how) else None;
      raised := UpdatePrometheusTargets(deployments, targetsFault, fault == Some(BackupWrite));
      if raised {
        return;
      }
      var variablesFault := if fault.Some? && fault.value.VariablesWrite? then Some(fault.value.how) else None;
      raised := UpdateGrafanaVariables(deployments, now, variablesFault);
      if raised {
        return;
      }
      reloads := reloads + 1;
      previousDeployments := ProjectsOf(deployments);
    }
  }
}
