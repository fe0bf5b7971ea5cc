/** The decision logic of the build step: where the manifest is, which framework it names, which
    dependencies are added before building, the install and build fallback ladders with the
    temporary removal of `vite.config.js`, and the check and rewrite of the build output.
    Every external command (npm, npx, yarn) is an oracle: the `i`-th entry of an outcome sequence
    says whether the `i`-th rung of a ladder succeeds, and a missing entry means it fails. */
module BuildOrchestrator {
  import opened Wrappers
  import opened Text
  import AssetPaths

  // -------------------------------------------------------------------------------------------
  // Framework detection

  /** The parts of `package.json` the build step reads: the names under `dependencies` and
      `devDependencies`, and `scripts.build` (empty when absent). */
  datatype Manifest = Manifest(dependencies: set<string>, devDependencies: set<string>, buildScript: string)

  /** `{**dependencies, **devDependencies}`: only the names are ever consulted. */
  function Deps(m: Manifest): set<string>
  {
    m.dependencies + m.devDependencies
  }

  datatype Framework = Vite | Next | Angular | Vue | React | Node

  /** The framework's name as the build step reports it. */
  function Name(f: Framework): string
  {
    match f
    case Vite => "vite"
    case Next => "next"
    case Angular => "angular"
    case Vue => "vue"
    case React => "react"
    case Node => "node"
  }

  /** A framework together with the directory its build writes to. */
  datatype Detection = Detection(framework: Framework, outDir: string)

  /** The if/elif chain over the merged dependency names; `None` is a manifest that cannot be
      read or parsed, which falls back to a react build. */
  function DetectFramework(manifest: Option<Manifest>): Detection
  {
    match manifest
    case None => Detection(React, "build")
    case Some(m) =>
      var deps := Deps(m);
      if "vite" in deps then Detection(Vite, "dist")
      else if "next" in deps then Detection(Next, ".next")
      else if "@angular/core" in deps then Detection(Angular, "dist")
      else if "vue" in deps then Detection(Vue, "dist")
      else if "react-scripts" in deps then Detection(React, "build")
      else if "react" in deps then Detection(React, "build")
      else Detection(Node, "dist")
  }

  /** The same decision as a priority table: a marker dependency and what it selects. */
  const DetectionTable: seq<(string, Detection)> :=
    [("vite", Detection(Vite, "dist")), ("next", Detection(Next, ".next")),
     ("@angular/core", Detection(Angular, "dist")), ("vue", Detection(Vue, "dist")),
     ("react-scripts", Detection(React, "build")), ("react", Detection(React, "build"))]

  /** Index of the first row whose marker is a dependency, or the table's length. */
  function FirstRow(table: seq<(string, Detection)>, deps: set<string>): (i: nat)
    ensures i <= |table|
    ensures i < |table| ==> table[i].0 in deps
    ensures forall j :: 0 <= j < i ==> table[j].0 !in deps
  {
    if table == [] then 0
    else if table[0].0 in deps then 0
    else 1 + FirstRow(table[1..], deps)
  }

  /** Detection is the first matching row of the table, and `(node, dist)` when no row matches. */
  lemma DetectByTable(m: Manifest)
    ensures var i := FirstRow(DetectionTable, Deps(m));
            DetectFramework(Some(m)) == if i < |DetectionTable| then DetectionTable[i].1 else Detection(Node, "dist")
  {
    var i := FirstRow(DetectionTable, Deps(m));
    var t := DetectionTable;
    var deps := Deps(m);
    assert t[0].0 == "vite" && t[1].0 == "next" && t[2].0 == "@angular/core" && t[3].0 == "vue" &&
           t[4].0 == "react-scripts" && t[5].0 == "react";
    if "vite" in deps {
      assert i == 0;
    } else if "next" in deps {
      assert i == 1;
    } else if "@angular/core" in deps {
      assert i == 2;
    } else if "vue" in deps {
      assert i == 3;
    } else if "react-scripts" in deps {
      assert i == 4;
    } else if "react" in deps {
      assert i == 5;
    } else {
      assert i == 6;
    }
  }

  /** A node project is exactly one that names none of the six markers. */
  lemma DetectNode(m: Manifest)
    ensures DetectFramework(Some(m)).framework == Node <==>
            forall i :: 0 <= i < |DetectionTable| ==> DetectionTable[i].0 !in Deps(m)
  {
    var t := DetectionTable;
    if DetectFramework(Some(m)).framework != Node {
      var i :| 0 <= i < |t| && t[i].0 in Deps(m) by {
        if "vite" in Deps(m) { assert t[0].0 == "vite"; }
        else if "next" in Deps(m) { assert t[1].0 == "next"; }
        else if "@angular/core" in Deps(m) { assert t[2].0 == "@angular/core"; }
        else if "vue" in Deps(m) { assert t[3].0 == "vue"; }
        else if "react-scripts" in Deps(m) { assert t[4].0 == "react-scripts"; }
        else { assert t[5].0 == "react"; }
      }
    }
  }

  // -------------------------------------------------------------------------------------------
  // Manifest location

  const NoManifestError := "No package.json found in repository"

  /** Where the project lives: its directory and its path relative to the repository. */
  datatype Location = Location(projectDir: string, relativePath: string)

  /** A manifest found below the repository is skipped when its full path, repository directory
      included, contains `node_modules` anywhere. */
  predicate Skipped(repo: string, dir: string)
  {
    Contains(repo + "/" + dir + "/package.json", "node_modules")
  }

  /** Index of the first found manifest that is not skipped, or the number found. */
  function FirstKept(repo: string, found: seq<string>): (i: nat)
    ensures i <= |found|
    ensures i < |found| ==> !Skipped(repo, found[i])
    ensures forall j :: 0 <= j < i ==> Skipped(repo, found[j])
  {
    if found == [] then 0
    else if !Skipped(repo, found[0]) then 0
    else 1 + FirstKept(repo, found[1..])
  }

  /** A manifest at the root wins with relative path `.`; otherwise the first of the manifests
      found below (`found` lists their directories, relative to `repo`, in search order) whose path
      does not contain `node_modules`, its relative path written with `/`. */
  method FindPackageJson(repo: string, atRoot: bool, found: seq<string>) returns (r: Result<Location>)
    ensures atRoot ==> r == Ok(Location(repo, "."))
    ensures !atRoot ==>
              var i := FirstKept(repo, found);
              if i < |found| then r == Ok(Location(repo + "/" + found[i], ReplaceChar(found[i], '\\', '/')))
              else r == Err(NoManifestError)
  {
    if atRoot {
      return Ok(Location(repo, "."));
    }
    for i := 0 to |found|
      invariant forall j :: 0 <= j < i ==> Skipped(repo, found[j])
    {
      if Skipped(repo, found[i]) {
        continue;
      }
      assert FirstKept(repo, found) == i;
      return Ok(Location(repo + "/" + found[i], ReplaceChar(found[i], '\\', '/')));
    }
    return Err(NoManifestError);
  }

  /** Because the whole path is searched, a repository checked out anywhere below a directory
      whose name contains `node_modules` only ever finds a manifest at its root. */
  lemma NodeModulesRepoFindsNothing(repo: string, found: seq<string>)
    requires Contains(repo, "node_modules")
    ensures FirstKept(repo, found) == |found|
  {
    forall j | 0 <= j < |found| ensures Skipped(repo, found[j]) {
      assert repo + "/" + found[j] + "/package.json" == repo + ("/" + found[j] + "/package.json");
      ContainsAppend(repo, "/" + found[j] + "/package.json", "node_modules");
    }
  }

  /** The framework of a repository for `init`: that of the located project, or `react` at the
      repository itself when no manifest is found. */
  method DetectProjectDirectory(repo: string, atRoot: bool, found: seq<string>, manifest: Option<Manifest>)
    returns (framework: string, dir: string)
    ensures atRoot ==> framework == Name(DetectFramework(manifest).framework) && dir == repo
    ensures !atRoot ==>
              var i := FirstKept(repo, found);
              if i < |found| then framework == Name(DetectFramework(manifest).framework) && dir == repo + "/" + found[i]
              else framework == "react" && dir == repo
  {
    var r := FindPackageJson(repo, atRoot, found);
    if r.Err? {
      return "react", repo;
    }
    var d := DetectFramework(manifest);
    return Name(d.framework), r.value.projectDir;
  }

  // -------------------------------------------------------------------------------------------
  // Dependencies added before the build

  /** The build script names typescript (a substring test) but typescript is not a dependency. */
  predicate NeedsTypeScript(m: Manifest)
  {
    Contains(m.buildScript, "typescript") && "typescript" !in Deps(m)
  }

  /** The order in which the vite preparation can ask for packages. */
  const ViteCatalog := ["vite@latest", "@vitejs/plugin-react@latest", "@vitejs/plugin-vue@latest",
                        "typescript@latest", "@types/node@latest"]

  /** The order in which the react preparation can ask for packages. */
  const ReactCatalog := ["react@latest", "react-dom@latest", "react-scripts@latest"]

  /** The entries of `xs` whose flag is set, in order. */
  function Select(xs: seq<string>, flags: seq<bool>): (r: seq<string>)
    requires |xs| == |flags|
    ensures |r| <= |xs|
  {
    if xs == [] then [] else (if flags[0] then [xs[0]] else []) + Select(xs[1..], flags[1..])
  }

  /** The entry `x` when `b` holds. */
  function Pick(b: bool, x: string): seq<string>
  {
    if b then [x] else []
  }

  lemma SelectThree(xs: seq<string>, flags: seq<bool>)
    requires |xs| == |flags| == 3
    ensures Select(xs, flags) == Pick(flags[0], xs[0]) + (Pick(flags[1], xs[1]) + Pick(flags[2], xs[2]))
  {
    assert Select(xs[3..], flags[3..]) == [];
    assert Select(xs[2..], flags[2..]) == Pick(flags[2], xs[2]) + Select(xs[3..], flags[3..]);
    assert Pick(flags[2], xs[2]) + [] == Pick(flags[2], xs[2]);
    assert Select(xs[1..], flags[1..]) == Pick(flags[1], xs[1]) + Select(xs[2..], flags[2..]);
  }

  lemma SelectFive(xs: seq<string>, flags: seq<bool>)
    requires |xs| == |flags| == 5
    ensures Select(xs, flags) == Pick(flags[0], xs[0]) + (Pick(flags[1], xs[1]) + (Pick(flags[2], xs[2]) +
                                 (Pick(flags[3], xs[3]) + Pick(flags[4], xs[4]))))
  {
    assert Select(xs[5..], flags[5..]) == [];
    assert Select(xs[4..], flags[4..]) == Pick(flags[4], xs[4]) + Select(xs[5..], flags[5..]);
    assert Pick(flags[4], xs[4]) + [] == Pick(flags[4], xs[4]);
    assert Select(xs[3..], flags[3..]) == Pick(flags[3], xs[3]) + Select(xs[4..], flags[4..]);
    assert Select(xs[2..], flags[2..]) == Pick(flags[2], xs[2]) + Select(xs[3..], flags[3..]);
    assert Select(xs[1..], flags[1..]) == Pick(flags[1], xs[1]) + Select(xs[2..], flags[2..]);
  }

  /** An entry is selected exactly when some position holding it is flagged. */
  lemma {:induction false} SelectMember(xs: seq<string>, flags: seq<bool>, x: string)
    requires |xs| == |flags|
    ensures x in Select(xs, flags) <==> exists i :: 0 <= i < |xs| && flags[i] && xs[i] == x
  {
    if xs != [] {
      SelectMember(xs[1..], flags[1..], x);
      if x in Select(xs[1..], flags[1..]) {
        var i :| 0 <= i < |xs| - 1 && flags[1..][i] && xs[1..][i] == x;
        assert flags[i + 1] && xs[i + 1] == x;
      }
      if exists i :: 0 <= i < |xs| && flags[i] && xs[i] == x {
        var i :| 0 <= i < |xs| && flags[i] && xs[i] == x;
        if i > 0 {
          assert flags[1..][i - 1] && xs[1..][i - 1] == x;
        }
      }
    }
  }

  /** In a list whose other entries differ from `xs[i]`, that entry is selected exactly when its
      own flag is set. */
  lemma SelectDistinct(xs: seq<string>, flags: seq<bool>, i: nat)
    requires |xs| == |flags| && i < |xs|
    requires forall j :: 0 <= j < |xs| && j != i ==> xs[j] != xs[i]
    ensures xs[i] in Select(xs, flags) <==> flags[i]
  {
    SelectMember(xs, flags, xs[i]);
  }

  /** Appending the picked entries one condition at a time gives the right-nested selection. */
  lemma PicksInOrder(x0: string, x1: string, x2: string, x3: string, x4: string,
                     b0: bool, b1: bool, b2: bool, b3: bool)
    ensures Pick(b0, x0) + Pick(b1, x1) + Pick(b2, x2) + (if b3 then [x3, x4] else []) ==
            Pick(b0, x0) + (Pick(b1, x1) + (Pick(b2, x2) + (Pick(b3, x3) + Pick(b3, x4))))
  {
  }

  /** Which entries of the vite catalog are missing. */
  function ViteFlags(m: Manifest): (flags: seq<bool>)
    ensures |flags| == |ViteCatalog|
  {
    var deps := Deps(m);
    ["vite" !in deps, "react" in deps && "@vitejs/plugin-react" !in deps,
     "vue" in deps && "@vitejs/plugin-vue" !in deps, NeedsTypeScript(m), NeedsTypeScript(m)]
  }

  /** Which entries of the react catalog are missing. */
  function ReactFlags(m: Manifest): (flags: seq<bool>)
    ensures |flags| == |ReactCatalog|
  {
    var deps := Deps(m);
    ["react" !in deps, "react" !in deps, "react-scripts" !in deps && "vite" !in deps]
  }

  /** What the vite preparation asks for: vite when it is absent, each plugin when its framework
      is present and the plugin is not, and typescript with `@types/node` when the build script
      mentions typescript but typescript is not a dependency. */
  lemma ViteMissingMeaning(m: Manifest)
    ensures var missing := Select(ViteCatalog, ViteFlags(m)); var deps := Deps(m);
            (("vite@latest" in missing) <==> "vite" !in deps) &&
            (("@vitejs/plugin-react@latest" in missing) <==> "react" in deps && "@vitejs/plugin-react" !in deps) &&
            (("@vitejs/plugin-vue@latest" in missing) <==> "vue" in deps && "@vitejs/plugin-vue" !in deps) &&
            (("typescript@latest" in missing) <==> NeedsTypeScript(m)) &&
            (("@types/node@latest" in missing) <==> NeedsTypeScript(m)) &&
            forall x :: x in missing ==> x in ViteCatalog
  {
    var c, f := ViteCatalog, ViteFlags(m);
    assert |c[0]| == 11 && |c[1]| == 27 && |c[2]| == 25 && |c[3]| == 17 && |c[4]| == 18;
    SelectDistinct(c, f, 0);
    SelectDistinct(c, f, 1);
    SelectDistinct(c, f, 2);
    SelectDistinct(c, f, 3);
    SelectDistinct(c, f, 4);
    forall x | x in Select(c, f) ensures x in c {
      SelectMember(c, f, x);
    }
  }

  /** What the react preparation asks for: react and react-dom when react is absent, and
      react-scripts when neither react-scripts nor vite is present. */
  lemma ReactMissingMeaning(m: Manifest)
    ensures var missing := Select(ReactCatalog, ReactFlags(m)); var deps := Deps(m);
            (("react@latest" in missing) <==> "react" !in deps) &&
            (("react-dom@latest" in missing) <==> "react" !in deps) &&
            (("react-scripts@latest" in missing) <==> "react-scripts" !in deps && "vite" !in deps) &&
            forall x :: x in missing ==> x in ReactCatalog
  {
    var c, f := ReactCatalog, ReactFlags(m);
    assert |c[0]| == 12 && |c[1]| == 16 && |c[2]| == 20;
    SelectMember(c, f, "react@latest");
    SelectMember(c, f, "react-dom@latest");
    SelectMember(c, f, "react-scripts@latest");
    forall x | x in Select(c, f) ensures x in c {
      SelectMember(c, f, x);
    }
  }

  /** The missing-package list of the vite preparation, built by appending. */
  method MissingViteDeps(m: Manifest) returns (missing: seq<string>)
    ensures missing == Select(ViteCatalog, ViteFlags(m))
  {
    var deps := Deps(m);
    missing := [];
    if "vite" !in deps {
      missing := missing + ["vite@latest"];
    }
    ghost var m0 := missing;
    if "react" in deps && "@vitejs/plugin-react" !in deps {
      missing := missing + ["@vitejs/plugin-react@latest"];
    }
    ghost var m1 := missing;
    if "vue" in deps && "@vitejs/plugin-vue" !in deps {
      missing := missing + ["@vitejs/plugin-vue@latest"];
    }
    ghost var m2 := missing;
    if NeedsTypeScript(m) {
      missing := missing + ["typescript@latest", "@types/node@latest"];
    }
    assert m0 == Pick("vite" !in deps, "vite@latest");
    assert m1 == m0 + Pick("react" in deps && "@vitejs/plugin-react" !in deps, "@vitejs/plugin-react@latest");
    assert m2 == m1 + Pick("vue" in deps && "@vitejs/plugin-vue" !in deps, "@vitejs/plugin-vue@latest");
    assert missing == m2 + (if NeedsTypeScript(m) then ["typescript@latest", "@types/node@latest"] else []);
    ViteSelection(m);
    PicksInOrder("vite@latest", "@vitejs/plugin-react@latest", "@vitejs/plugin-vue@latest",
                 "typescript@latest", "@types/node@latest", "vite" !in deps,
                 "react" in deps && "@vitejs/plugin-react" !in deps,
                 "vue" in deps && "@vitejs/plugin-vue" !in deps, NeedsTypeScript(m));
  }

  /** The vite selection spelled out entry by entry. */
  lemma ViteSelection(m: Manifest)
    ensures var deps := Deps(m);
            Select(ViteCatalog, ViteFlags(m)) ==
            Pick("vite" !in deps, "vite@latest") +
            (Pick("react" in deps && "@vitejs/plugin-react" !in deps, "@vitejs/plugin-react@latest") +
            (Pick("vue" in deps && "@vitejs/plugin-vue" !in deps, "@vitejs/plugin-vue@latest") +
            (Pick(NeedsTypeScript(m), "typescript@latest") + Pick(NeedsTypeScript(m), "@types/node@latest"))))
  {
    SelectFive(ViteCatalog, ViteFlags(m));
  }

  /** The vite-plugin lines of the generated `vite.config.js`, from the dependencies read before
      anything was installed. */
  method VitePlugins(deps: set<string>) returns (plugins: seq<string>)
    ensures ("react()" in plugins) <==> "react" in deps && "@vitejs/plugin-react" in deps
    ensures ("vue()" in plugins) <==> "vue" in deps && "@vitejs/plugin-vue" in deps
    ensures plugins == Select(["react()", "vue()"],
                              ["react" in deps && "@vitejs/plugin-react" in deps, "vue" in deps && "@vitejs/plugin-vue" in deps])
  {
    plugins := [];
    if "react" in deps && "@vitejs/plugin-react" in deps {
      plugins := plugins + ["react()"];
    }
    if "vue" in deps && "@vitejs/plugin-vue" in deps {
      plugins := plugins + ["vue()"];
    }
  }

  /** The react preparation: react and react-dom when react is missing, react-scripts when
      neither react-scripts nor vite is present; an unreadable manifest asks for nothing. The
      install command, when there is one, is `npm install` followed by the list. */
  method PrepareReact(manifest: Option<Manifest>) returns (missing: seq<string>, command: Option<Command>)
    ensures manifest.None? ==> missing == [] && command == None
    ensures manifest.Some? ==> missing == Select(ReactCatalog, ReactFlags(manifest.value))
    ensures command == if missing == [] then None else Some(["npm", "install"] + missing)
  {
    missing := [];
    command := None;
    if manifest.None? {
      return;
    }
    var deps := Deps(manifest.value);
    SelectThree(ReactCatalog, ReactFlags(manifest.value));
    if "react" !in deps {
      missing := missing + ["react@latest", "react-dom@latest"];
    }
    if "react-scripts" !in deps && "vite" !in deps {
      missing := missing + ["react-scripts@latest"];
    }
    if missing != [] {
      command := Some(["npm", "install"] + missing);
    }
  }

  // -------------------------------------------------------------------------------------------
  // Fallback ladders

  /** A command line. */
  type Command = seq<string>

  /** Rung `i` was run and succeeded. */
  predicate Succeeds(outcomes: seq<bool>, i: nat)
  {
    i < |outcomes| && outcomes[i]
  }

  /** The first of the rungs `0 .. n-1` that succeeds. */
  function FirstSuccess(outcomes: seq<bool>, n: nat): (r: Option<nat>)
    ensures r.Some? ==> r.value < n && Succeeds(outcomes, r.value) &&
                        forall j :: 0 <= j < r.value ==> !Succeeds(outcomes, j)
    ensures r.None? ==> forall j :: 0 <= j < n ==> !Succeeds(outcomes, j)
  {
    if n == 0 then None
    else match FirstSuccess(outcomes, n - 1)
      case Some(i) => Some(i)
      case None => if Succeeds(outcomes, n - 1) then Some(n - 1) else None
  }

  /** Adding a rung does not change an earlier winner. */
  lemma {:induction false} FirstSuccessStable(outcomes: seq<bool>, n: nat, m: nat)
    requires n <= m && FirstSuccess(outcomes, n).Some?
    ensures FirstSuccess(outcomes, m) == FirstSuccess(outcomes, n)
    decreases m
  {
    if m > n {
      FirstSuccessStable(outcomes, n, m - 1);
    }
  }

  const CacheClean: Command := ["npm", "cache", "clean", "--force"]

  const InstallLadder: seq<Command> :=
    [["npm", "ci"], ["npm", "install"], ["npm", "install", "--legacy-peer-deps"], ["yarn", "install"]]

  const InstallError := "Failed to install dependencies: All dependency installation methods failed"

  /** Install dependencies: clean the npm cache (its outcome is ignored), then try each rung of
      the install ladder in order, yarn only when it is available, and stop at the first that
      succeeds. `tried` is the commands run, in order. */
  method InstallDependencies(outcomes: seq<bool>, yarnAvailable: bool) returns (r: Result<nat>, tried: seq<Command>)
    ensures var n := if yarnAvailable then 4 else 3;
            match FirstSuccess(outcomes, n)
            case Some(i) => r == Ok(i) && tried == [CacheClean] + InstallLadder[..i + 1]
            case None => r == Err(InstallError) && tried == [CacheClean] + InstallLadder[..n]
  {
    tried := [CacheClean, InstallLadder[0]];
    if Succeeds(outcomes, 0) {
      return Ok(0), tried;
    }
    tried := tried + [InstallLadder[1]];
    if Succeeds(outcomes, 1) {
      return Ok(1), tried;
    }
    tried := tried + [InstallLadder[2]];
    if Succeeds(outcomes, 2) {
      return Ok(2), tried;
    }
    if yarnAvailable {
      tried := tried + [InstallLadder[3]];
      if Succeeds(outcomes, 3) {
        return Ok(3), tried;
      }
    }
    return Err(InstallError), tried;
  }

  /** Strategy 2: the framework's own build command; vue and node repeat `npm run build`. */
  function FrameworkCommand(f: Framework): Command
  {
    match f
    case Vite => ["npx", "vite", "build"]
    case React => ["npx", "react-scripts", "build"]
    case Next => ["npx", "next", "build"]
    case Angular => ["npx", "ng", "build", "--base-href", "./"]
    case _ => ["npm", "run", "build"]
  }

  const StandardBuild: Command := ["npm", "run", "build"]

  /** Strategies 3 and 4 both run this; strategy 4 runs it with the config moved aside. */
  const ForcedBaseBuild: Command := ["npx", "vite", "build", "--base", "./"]

  /** The build ladder of a framework: strategies 3 and 4 exist only for vite. */
  function BuildLadder(f: Framework): (ladder: seq<Command>)
    ensures |ladder| == if f == Vite then 4 else 2
  {
    [StandardBuild, FrameworkCommand(f)] + if f == Vite then [ForcedBaseBuild, ForcedBaseBuild] else []
  }

  const BuildError := "All build strategies failed"

  const ViteConfig := "vite.config.js"
  const ViteBackup := "vite.config.js.backup"

  /** The project's file names after strategy 4 ran: a config that was present is moved aside and
      moved back whatever the outcome; when none was present, a failure still renames a backup
      left from an earlier run into place. */
  function AfterConfigless(files: set<string>, ok: bool): set<string>
  {
    if ViteConfig in files then files - {ViteBackup}
    else if !ok && ViteBackup in files then files - {ViteBackup} + {ViteConfig}
    else files
  }

  /** A config present before strategy 4 is present after it, and no backup is left behind. */
  lemma ConfigRestored(files: set<string>, ok: bool)
    requires ViteConfig in files
    ensures ViteConfig in AfterConfigless(files, ok) && ViteBackup !in AfterConfigless(files, ok)
    ensures AfterConfigless(files, ok) - {ViteConfig} == files - {ViteConfig, ViteBackup}
  {
  }

  /** Without a config, a failed strategy 4 turns a stale backup into the live config. */
  lemma StaleBackupRevived(files: set<string>)
    requires ViteConfig !in files && ViteBackup in files
    ensures ViteConfig in AfterConfigless(files, false) && ViteBackup !in AfterConfigless(files, false)
    ensures AfterConfigless(files, true) == files
  {
  }

  // -------------------------------------------------------------------------------------------
  // Build output

  /** What a successful build leaves in its output directory: files by relative path with their
      text, and sub-directories. */
  datatype Output = Output(files: map<string, string>, dirs: set<string>)

  /** `rglob('*.html')`: the file's name ends in `.html`, letter case as written. */
  predicate IsHtmlPath(path: string)
  {
    EndsWith(FileName(path), ".html")
  }

  /** The file's suffix, lower-cased, is one of `.html`, `.js`, `.css`. */
  predicate IsWebFile(path: string)
  {
    LowerSuffix(path) in [".html", ".js", ".css"]
  }

  /** Some file of the output is HTML, JavaScript or CSS. */
  predicate HasWebFile(files: map<string, string>)
  {
    exists k :: k in files && IsWebFile(k)
  }

  /** The output after every HTML file went through the asset-path normaliser. */
  function Fixed(files: map<string, string>): (r: map<string, string>)
    ensures r.Keys == files.Keys
  {
    map k | k in files :: if IsHtmlPath(k) then AssetPaths.Normalize(files[k]) else files[k]
  }

  /** Fixing the output keeps its number of files. */
  lemma FixedSize(files: map<string, string>)
    ensures |Fixed(files)| == |files|
  {
    assert |Fixed(files)| == |Fixed(files).Keys| == |files.Keys| == |files|;
  }

  /** The HTML files whose text the normaliser changes: those that are written back. */
  function Changed(files: map<string, string>): (r: set<string>)
    ensures forall k :: k in r <==> k in files && IsHtmlPath(k) && AssetPaths.Normalize(files[k]) != files[k]
  {
    set k | k in files && IsHtmlPath(k) && AssetPaths.Normalize(files[k]) != files[k]
  }

  /** The HTML files of an output. */
  function HtmlPaths(files: map<string, string>): (r: set<string>)
    ensures forall k :: k in r <==> k in files && IsHtmlPath(k)
  {
    set k | k in files && IsHtmlPath(k)
  }

  /** The output with just the files in `done` normalised. */
  ghost function PartlyFixed(files: map<string, string>, done: set<string>): map<string, string>
  {
    map k | k in files :: if k in done then AssetPaths.Normalize(files[k]) else files[k]
  }

  /** The files in `done` whose text normalisation changes. */
  ghost function ChangedAmong(files: map<string, string>, done: set<string>): set<string>
  {
    set k | k in done && k in files && AssetPaths.Normalize(files[k]) != files[k]
  }

  lemma FixStart(files: map<string, string>)
    ensures PartlyFixed(files, {}) == files && ChangedAmong(files, {}) == {}
  {
  }

  /** Moving one element from `todo` to `done` keeps their union and their disjointness. */
  lemma MoveOne<T>(todo: set<T>, done: set<T>, x: T)
    requires x in todo && todo !! done
    ensures (todo - {x}) + (done + {x}) == todo + done && (todo - {x}) !! (done + {x})
  {
  }

  lemma FixStep(files: map<string, string>, done: set<string>, path: string)
    requires path in files && path !in done
    ensures path in PartlyFixed(files, done) && PartlyFixed(files, done)[path] == files[path]
    ensures PartlyFixed(files, done)[path := AssetPaths.Normalize(files[path])] == PartlyFixed(files, done + {path})
  {
  }

  lemma WrittenStep(files: map<string, string>, done: set<string>, path: string, before: set<string>, written: set<string>)
    requires path in files && path !in done && written == before + ChangedAmong(files, done)
    ensures (if AssetPaths.Normalize(files[path]) != files[path] then written + {path} else written) ==
            before + ChangedAmong(files, done + {path})
  {
  }

  lemma FixDone(files: map<string, string>, done: set<string>)
    requires done == HtmlPaths(files)
    ensures PartlyFixed(files, done) == Fixed(files)
    ensures ChangedAmong(files, done) == Changed(files)
  {
  }

  /** HTML files without root-relative references are neither changed nor written. */
  lemma FixKeepsPlainHtml(files: map<string, string>, k: string)
    requires k in files
    requires !Contains(files[k], "=\"/") && !Contains(files[k], "<base") && !Contains(files[k], "url(/")
    ensures Fixed(files)[k] == files[k] && k !in Changed(files)
  {
    AssetPaths.NormalizeFixedPoint(files[k]);
  }

  /** A non-HTML file is never touched. */
  lemma FixKeepsOtherFiles(files: map<string, string>, k: string)
    requires k in files && !IsHtmlPath(k)
    ensures Fixed(files)[k] == files[k] && k !in Changed(files)
  {
  }

  /** Pipeline results. */
  datatype BuildInfo = BuildInfo(framework: string, projectPath: string, buildDir: string, totalFiles: nat)

  /** The external outcomes one build sees. */
  datatype Toolchain = Toolchain(
    manifest: Option<Manifest>,   // the located package.json, `None` when unreadable
    prepInstallOk: bool,          // the `npm install --save-dev` of missing vite packages
    installOutcomes: seq<bool>,   // per rung of the install ladder
    yarnAvailable: bool,
    buildOutcomes: seq<bool>,     // per rung of the build ladder
    output: Option<Output>)       // what the successful build left, `None` for no directory

  const NoContentError := "Build failed - no valid content generated"

  /** The report the pipeline assembles from the located project and the counted output. */
  lemma ReportedFrom(repo: string, atRoot: bool, found: seq<string>, tc: Toolchain, loc: Location, total: nat)
    requires atRoot ==> loc == Location(repo, ".")
    requires !atRoot ==> FirstKept(repo, found) < |found| &&
                         loc == Location(repo + "/" + found[FirstKept(repo, found)], ReplaceChar(found[FirstKept(repo, found)], '\\', '/'))
    requires tc.output.Some? && total == |tc.output.value.files| + |tc.output.value.dirs|
    ensures var d := DetectFramework(tc.manifest);
            Reported(repo, atRoot, found, tc) == BuildInfo(Name(d.framework), loc.relativePath, loc.projectDir + "/" + d.outDir, total)
  {
  }

  /** The message of the first stage of a located project's build that fails: installation,
      the build itself, the missing output directory, or an output with no HTML, JavaScript or
      CSS file.  `None` when every stage succeeds. */
  function StageError(d: Detection, tc: Toolchain): (e: Option<string>)
    ensures e.None? ==> tc.output.Some? && HasWebFile(tc.output.value.files)
  {
    if FirstSuccess(tc.installOutcomes, if tc.yarnAvailable then 4 else 3).None? then Some(InstallError)
    else if FirstSuccess(tc.buildOutcomes, |BuildLadder(d.framework)|).None? then Some(BuildError)
    else if tc.output.None? then Some(NoOutputError(d.outDir))
    else if !HasWebFile(tc.output.value.files) then Some(NoContentError)
    else None
  }

  /** The install ladder and then the build ladder each reach a success. */
  predicate Built(d: Detection, tc: Toolchain)
  {
    && FirstSuccess(tc.installOutcomes, if tc.yarnAvailable then 4 else 3).Some?
    && FirstSuccess(tc.buildOutcomes, |BuildLadder(d.framework)|).Some?
  }

  /** The vite preparation writes `vite.config.js` when the manifest is readable and either no
      package is missing or their install succeeded. */
  predicate WritesViteConfig(d: Detection, tc: Toolchain)
  {
    d.framework == Vite && tc.manifest.Some? &&
    (Select(ViteCatalog, ViteFlags(tc.manifest.value)) == [] || tc.prepInstallOk)
  }

  /** The project's file names after the framework preparation. */
  function Prepared(files: set<string>, d: Detection, tc: Toolchain): set<string>
  {
    if WritesViteConfig(d, tc) then files + {ViteConfig} else files
  }

  /** The project's file names after `_build_project_robust`: the vite preparation may write
      `vite.config.js`; once installation succeeded, a vite build that falls through to
      strategy 4 moves the config aside and back. */
  function BuiltFiles(files: set<string>, d: Detection, tc: Toolchain): set<string>
  {
    var prepared := Prepared(files, d, tc);
    if FirstSuccess(tc.installOutcomes, if tc.yarnAvailable then 4 else 3).Some? &&
       d.framework == Vite && FirstSuccess(tc.buildOutcomes, 3).None?
    then AfterConfigless(prepared, Succeeds(tc.buildOutcomes, 3))
    else prepared
  }

  /** A build changes no project file but `vite.config.js` and its backup, and only a vite
      project's. */
  lemma BuildTouchesOnlyConfig(files: set<string>, d: Detection, tc: Toolchain)
    ensures BuiltFiles(files, d, tc) - {ViteConfig, ViteBackup} == files - {ViteConfig, ViteBackup}
    ensures d.framework != Vite ==> BuiltFiles(files, d, tc) == files
  {
    var prepared := Prepared(files, d, tc);
    assert prepared - {ViteConfig, ViteBackup} == files - {ViteConfig, ViteBackup};
  }

  /** A vite build whose preparation wrote the config ends with the config in place, whatever
      the install and the build did; apart from a backup that strategy 4 may consume, the other
      files are as before. */
  lemma WrittenConfigKept(files: set<string>, d: Detection, tc: Toolchain)
    requires WritesViteConfig(d, tc)
    ensures ViteConfig in BuiltFiles(files, d, tc)
    ensures BuiltFiles(files, d, tc) - {ViteBackup} == files + {ViteConfig} - {ViteBackup}
  {
  }

  /** The build step's outcome in terms of the pipeline's stages: its error is the first failing
      stage's, and its success leaves only the content check. */
  lemma BuildStage(d: Detection, tc: Toolchain, built: Result<string>)
    requires var install := FirstSuccess(tc.installOutcomes, if tc.yarnAvailable then 4 else 3);
             var build := FirstSuccess(tc.buildOutcomes, |BuildLadder(d.framework)|);
             if install.None? then built == Err(InstallError)
             else if build.None? then built == Err(BuildError)
             else if tc.output.None? then built == Err(NoOutputError(d.outDir))
             else built == Ok(d.outDir)
    ensures built.Err? <==> !(Built(d, tc) && tc.output.Some?)
    ensures built.Err? ==> StageError(d, tc) == Some(built.message)
    ensures built.Ok? ==> StageError(d, tc) == if HasWebFile(tc.output.value.files) then None else Some(NoContentError)
  {
  }

  /** What a successful pipeline reports: the framework, the project's path relative to the
      repository (`.` at the root, `/`-separated otherwise), the output directory inside the
      project, and the number of files and sub-directories the build produced. */
  function Reported(repo: string, atRoot: bool, found: seq<string>, tc: Toolchain): BuildInfo
    requires atRoot || FirstKept(repo, found) < |found|
    requires tc.output.Some?
  {
    var d := DetectFramework(tc.manifest);
    var i := FirstKept(repo, found);
    BuildInfo(Name(d.framework),
              if atRoot then "." else ReplaceChar(found[i], '\\', '/'),
              (if atRoot then repo else repo + "/" + found[i]) + "/" + d.outDir,
              |tc.output.value.files| + |tc.output.value.dirs|)
  }

  /** The error of a build that left no output directory. */
  function NoOutputError(outDir: string): (message: string)
  {
    "Build directory '" + outDir + "' not created"
  }

  /** The project directory and its build output directory. */
  class Workspace {
    /** Names of the project directory's own files that the build step looks at. */
    var files: set<string>
    /** Whether the output directory exists, its files and its sub-directories. */
    var outPresent: bool
    var outFiles: map<string, string>
    var outDirs: set<string>
    /** Output files that were written back by the asset-path fix. */
    var rewritten: set<string>

    constructor(files: set<string>, previous: Option<Output>)
      ensures this.files == files && rewritten == {}
      ensures outPresent == previous.Some?
      ensures previous.Some? ==> outFiles == previous.value.files && outDirs == previous.value.dirs
      ensures previous.None? ==> outFiles == map[] && outDirs == {}
    {
      this.files := files;
      rewritten := {};
      if previous.Some? {
        outPresent, outFiles, outDirs := true, previous.value.files, previous.value.dirs;
      } else {
        outPresent, outFiles, outDirs := false, map[], {};
      }
    }

    /** The vite preparation: compute the missing packages, install them, then write
        `vite.config.js` with the plugins available BEFORE the install. A failed install skips
        the config; an unreadable manifest does nothing. */
    method PrepareVite(manifest: Option<Manifest>, installOk: bool)
      returns (missing: seq<string>, command: Option<Command>, plugins: Option<seq<string>>)
      modifies this`files
      ensures manifest.None? ==> missing == [] && command == None && plugins == None && files == old(files)
      ensures manifest.Some? ==> missing == Select(ViteCatalog, ViteFlags(manifest.value))
      ensures command == if missing == [] then None else Some(["npm", "install", "--save-dev"] + missing)
      ensures plugins.Some? <==> manifest.Some? && (missing == [] || installOk)
      ensures files == if plugins.Some? then old(files) + {ViteConfig} else old(files)
      ensures plugins.Some? ==>
                var deps := Deps(manifest.value);
                (("react()" in plugins.value) <==> "react" in deps && "@vitejs/plugin-react" in deps) &&
                (("vue()" in plugins.value) <==> "vue" in deps && "@vitejs/plugin-vue" in deps)
    {
      missing, command, plugins := [], None, None;
      if manifest.None? {
        return;
      }
      var deps := Deps(manifest.value);
      missing := MissingViteDeps(manifest.value);
      if missing != [] {
        command := Some(["npm", "install", "--save-dev"] + missing);
        if !installOk {
          return;
        }
      }
      var p := VitePlugins(deps);
      plugins := Some(p);
      files := files + {ViteConfig};
    }

    /** Try the build ladder in order and stop at the first success. Strategy 4 moves
        `vite.config.js` aside for its run and moves a backup back afterwards. */
    method BuildWithFallbacks(f: Framework, outcomes: seq<bool>) returns (r: Result<nat>, tried: seq<Command>)
      modifies this`files
      ensures var ladder := BuildLadder(f);
              match FirstSuccess(outcomes, |ladder|)
              case Some(i) => r == Ok(i) && tried == ladder[..i + 1]
              case None => r == Err(BuildError) && tried == ladder
      ensures files == if f == Vite && FirstSuccess(outcomes, 3).None?
                       then AfterConfigless(old(files), Succeeds(outcomes, 3)) else old(files)
    {
      var success := false;
      var winner := 0;
      tried := [];
      if !success {
        tried := tried + [StandardBuild];
        if Succeeds(outcomes, 0) {
          success, winner := true, 0;
        }
      }
      if !success {
        tried := tried + [FrameworkCommand(f)];
        if Succeeds(outcomes, 1) {
          success, winner := true, 1;
        }
      }
      if !success && f == Vite {
        tried := tried + [ForcedBaseBuild];
        if Succeeds(outcomes, 2) {
          success, winner := true, 2;
        }
      }
      if !success && f == Vite {
        var hadConfig := ViteConfig in files;
        if hadConfig {
          files := files - {ViteConfig} + {ViteBackup};
        }
        tried := tried + [ForcedBaseBuild];
        if Succeeds(outcomes, 3) {
          success, winner := true, 3;
          if hadConfig && ViteBackup in files {
            files := files - {ViteBackup} + {ViteConfig};
          }
        } else if ViteBackup in files {
          files := files - {ViteBackup} + {ViteConfig};
        }
      }
      if !success {
        return Err(BuildError), tried;
      }
      return Ok(winner), tried;
    }

    /** Rewrite one HTML file, writing it back only when its text changed. */
    method FixSingleHtmlFile(path: string)
      requires path in outFiles
      modifies this`outFiles, this`rewritten
      ensures outFiles == old(outFiles)[path := AssetPaths.Normalize(old(outFiles)[path])]
      ensures rewritten == if AssetPaths.Normalize(old(outFiles)[path]) != old(outFiles)[path]
                           then old(rewritten) + {path} else old(rewritten)
    {
      var content := outFiles[path];
      var fixedContent := AssetPaths.Normalize(content);
      if fixedContent != content {
        outFiles := outFiles[path := fixedContent];
        rewritten := rewritten + {path};
      }
    }

    /** Rewrite every HTML file of the output. */
    method FixAllAssetPaths()
      modifies this`outFiles, this`rewritten
      ensures outFiles == Fixed(old(outFiles))
      ensures rewritten == old(rewritten) + Changed(old(outFiles))
    {
      var todo := HtmlPaths(outFiles);
      ghost var done: set<string> := {};
      ghost var original := outFiles;
      ghost var before := rewritten;
      ghost var html := todo;
      assert html <= original.Keys;
      FixStart(original);
      while todo != {}
        invariant todo !! done && todo + done == html
        invariant outFiles == PartlyFixed(original, done)
        invariant rewritten == before + ChangedAmong(original, done)
        decreases |todo|
      {
        var path :| path in todo;
        FixStep(original, done, path);
        WrittenStep(original, done, path, before, rewritten);
        FixSingleHtmlFile(path);
        MoveOne(todo, done, path);
        todo := todo - {path};
        done := done + {path};
      }
      FixDone(original, done);
    }

    /** An output that exists and has files gets its HTML fixed; the verdict is whether some
        file, by its lower-cased suffix, is HTML, JavaScript or CSS. */
    method VerifyAndFix() returns (ok: bool)
      modifies this`outFiles, this`rewritten
      ensures ok <==> old(outPresent) && HasWebFile(old(outFiles))
      ensures if old(outPresent) && old(outFiles) != map[]
              then outFiles == Fixed(old(outFiles)) && rewritten == old(rewritten) + Changed(old(outFiles))
              else outFiles == old(outFiles) && rewritten == old(rewritten)
    {
      if !outPresent {
        return false;
      }
      if outFiles == map[] {
        return false;
      }
      var names := outFiles.Keys;
      FixAllAssetPaths();
      ok := exists k :: k in names && IsWebFile(k);
      assert ok == HasWebFile(old(outFiles));
    }

    /** The framework preparation before installation: vite projects get their missing packages
        and `vite.config.js`, react projects their missing packages. */
    method PrepareProject(d: Detection, tc: Toolchain)
      modifies this`files
      ensures files == Prepared(old(files), d, tc)
    {
      if d.framework == Vite {
        var _, _, _ := PrepareVite(tc.manifest, tc.prepInstallOk);
      } else if d.framework == React {
        var _, _ := PrepareReact(tc.manifest);
      }
    }

    /** `_build_project_robust`: remove the old output, prepare vite or react projects, install,
        build, and fail when the output directory was not created. */
    method BuildProject(d: Detection, tc: Toolchain) returns (r: Result<string>)
      modifies this
      ensures var install := FirstSuccess(tc.installOutcomes, if tc.yarnAvailable then 4 else 3);
              var build := FirstSuccess(tc.buildOutcomes, |BuildLadder(d.framework)|);
              if install.None? then r == Err(InstallError)
              else if build.None? then r == Err(BuildError)
              else if tc.output.None? then r == Err(NoOutputError(d.outDir))
              else r == Ok(d.outDir)
      ensures outPresent <==> Built(d, tc) && tc.output.Some?
      ensures outPresent ==> outFiles == tc.output.value.files && outDirs == tc.output.value.dirs
      ensures !outPresent ==> outFiles == map[] && outDirs == {}
      ensures files == BuiltFiles(old(files), d, tc)
      ensures rewritten == old(rewritten)
    {
      outPresent, outFiles, outDirs := false, map[], {};
      PrepareProject(d, tc);
      var installed, _ := InstallDependencies(tc.installOutcomes, tc.yarnAvailable);
      if installed.Err? {
        return Err(installed.message);
      }
      var built, _ := BuildWithFallbacks(d.framework, tc.buildOutcomes);
      if built.Err? {
        return Err(built.message);
      }
      if tc.output.Some? {
        outPresent, outFiles, outDirs := true, tc.output.value.files, tc.output.value.dirs;
      }
      if !outPresent {
        return Err(NoOutputError(d.outDir));
      }
      return Ok(d.outDir);
    }

    /** The workspace after building `d` with `tc`, from the project files `filesBefore` and the
        rewritten set `rewrittenBefore`: the project files of `BuiltFiles`; the fresh output,
        whose HTML is fixed, when install and build succeeded and left a directory; otherwise
        no output at all, since the old one was removed first. */
    ghost predicate AfterBuild(d: Detection, tc: Toolchain, filesBefore: set<string>, rewrittenBefore: set<string>)
      reads this
    {
      && files == BuiltFiles(filesBefore, d, tc)
      && (outPresent <==> Built(d, tc) && tc.output.Some?)
      && (outPresent ==>
            && outFiles == Fixed(tc.output.value.files) && outDirs == tc.output.value.dirs
            && rewritten == rewrittenBefore + Changed(tc.output.value.files))
      && (!outPresent ==> outFiles == map[] && outDirs == {} && rewritten == rewrittenBefore)
    }

    /** The cleanup of the repository after a failed pipeline: it is deleted, or renamed into the
        temporary directory when deletion fails; either way the project and its output are gone
        from where the pipeline looked for them. The record of rewritten files is kept. */
    method RemoveRepository()
      modifies this`files, this`outPresent, this`outFiles, this`outDirs
      ensures files == {} && !outPresent && outFiles == map[] && outDirs == {}
    {
      files, outPresent, outFiles, outDirs := {}, false, map[], {};
    }

    /** The whole pipeline: locate, detect, build, verify. Every failure removes the repository
        and is reported with the prefix `Build failed: `; success reports the framework, the
        project's relative path, the output directory and the number of files and directories
        in it. */
    method BuildAndPrepare(repo: string, atRoot: bool, found: seq<string>, tc: Toolchain) returns (r: Result<BuildInfo>)
      modifies this
      ensures r.Err? ==> StartsWith(r.message, "Build failed: ")
      ensures var i := FirstKept(repo, found);
              if !atRoot && i == |found| then r == Err("Build failed: " + NoManifestError)
              else match StageError(DetectFramework(tc.manifest), tc)
                case Some(e) => r == Err("Build failed: " + e)
                case None => r.Ok? && r.value == Reported(repo, atRoot, found, tc)
      ensures r.Ok? ==> tc.output.Some? && outFiles == Fixed(tc.output.value.files)
      ensures r.Ok? ==> AfterBuild(DetectFramework(tc.manifest), tc, old(files), old(rewritten))
      ensures r.Err? ==> files == {} && !outPresent && outFiles == map[] && outDirs == {}
      ensures r.Err? ==>
                rewritten == if (!atRoot && FirstKept(repo, found) == |found|) ||
                                !(Built(DetectFramework(tc.manifest), tc) && tc.output.Some?)
                             then old(rewritten)
                             else old(rewritten) + Changed(tc.output.value.files)
    {
      var loc := FindPackageJson(repo, atRoot, found);
      if loc.Err? {
        assert !atRoot && FirstKept(repo, found) == |found|;
        RemoveRepository();
        return Err("Build failed: " + NoManifestError);
      }
      assert atRoot || FirstKept(repo, found) < |found|;
      var d := DetectFramework(tc.manifest);
      var total := BuildAndVerify(d, tc);
      if total.Err? {
        assert StageError(d, tc) == Some(total.message);
        RemoveRepository();
        return Err("Build failed: " + total.message);
      }
      ReportedFrom(repo, atRoot, found, tc, loc.value, total.value);
      r := Ok(BuildInfo(Name(d.framework), loc.value.relativePath, loc.value.projectDir + "/" + d.outDir, total.value));
    }

    /** The build and the verification of its output, as the pipeline runs them on a located
        project: the first failing stage's message, or the number of files and directories of the
        output, whose HTML has then been fixed. */
    method BuildAndVerify(d: Detection, tc: Toolchain) returns (r: Result<nat>)
      modifies this
      ensures match StageError(d, tc)
                case Some(e) => r == Err(e)
                case None => r.Ok? && r.value == |tc.output.value.files| + |tc.output.value.dirs|
      ensures r.Ok? ==> tc.output.Some? && outFiles == Fixed(tc.output.value.files)
      ensures AfterBuild(d, tc, old(files), old(rewritten))
    {
      var built := BuildProject(d, tc);
      BuildStage(d, tc, built);
      if built.Err? {
        return Err(built.message);
      }
      r := VerifyOutput(tc.output.value);
    }

    /** The verification stage on the output `o` the build left: its HTML is fixed, and the
        result is the count of its files and directories, or the no-content error when no file
        is HTML, JavaScript or CSS. */
    method VerifyOutput(o: Output) returns (r: Result<nat>)
      requires outPresent && outFiles == o.files && outDirs == o.dirs
      modifies this`outFiles, this`rewritten
      ensures outFiles == Fixed(o.files) && rewritten == old(rewritten) + Changed(o.files)
      ensures if HasWebFile(o.files) then r.Ok? && r.value == |o.files| + |o.dirs| else r == Err(NoContentError)
    {
      var ok := VerifyAndFix();
      if !ok {
        return Err(NoContentError);
      }
      FixedSize(o.files);
      r := Ok(|outFiles| + |outDirs|);
    }
  }
}
