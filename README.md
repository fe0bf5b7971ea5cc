# Deployment tool core, modelled in Dafny

The deployment tool builds a front-end project taken from a GitHub repository. It uploads the build to an S3 bucket as an immutable version and makes a chosen version live. A separate discovery service watches the bucket and keeps the monitoring stack's target lists in step with what is live. This project models five parts of that system:

- **Release Store** (`release_store.dfy`, module `ReleaseStore`). The bucket is a class `Bucket` whose field `objects` maps each object key to its bytes and two headers. A project owns `{project}/builds/{version}/…` and `{project}/current/…`. Methods cover:
  - uploading a version;
  - clearing a prefix in delete batches of at most 1000 keys;
  - copying a prefix;
  - activating a version;
  - listing versions, newest first;
  - reporting status;
  - deleting all but the `keep` newest versions.

  Each method is proved against a function of the old bucket (`Uploaded`, `Cleared`, `Copied`, `Activated`, `Pruned`). The lemmas then state what those functions mean.
- **Build Orchestrator** (`build_orchestrator.dfy`, module `BuildOrchestrator`). It covers:
  - locating `package.json` and detecting the framework;
  - the packages the vite and react preparations add;
  - the `vite.config.js` plugin list;
  - the install and build fallback ladders;
  - the temporary move of `vite.config.js` in the last build strategy;
  - verifying the build output and rewriting its HTML files.

  Each external command (npm, npx, yarn) becomes an input: one boolean per rung of a ladder says whether that rung succeeds. The project directory and its output directory are a class `Workspace`.
- **HTML asset-path normaliser** (`asset_paths.dfy`, module `AssetPaths`). It models the six regular-expression substitutions of `_fix_single_html_file`. Each one is a left-to-right scanner that reproduces the leftmost, non-overlapping, greedy matching of Python's `re.sub`.
- **Configuration** (`config_store.dfy`, `config_command.dfy`, modules `ConfigStore` and `ConfigCommand`). This covers:
  - the JSON document as a `Value` datatype;
  - the recursive `deep_update` merge;
  - dotted-path lookup with a default;
  - the configuration manager's cache and file, as a class `ConfigManager`;
  - the `config set` / `config get` commands with their validation messages;
  - `_parse_value`.
- **GitHub URLs** (`github_url.dfy`, module `GithubUrl`). The two validation patterns and the two extraction patterns are written as character-level predicates.
- **Discovery** (`discovery.dfy`, module `Discovery`). It covers:
  - the framework heuristic over object keys;
  - one discovery cycle over an in-memory bucket, in which injected faults model the failing S3 calls;
  - the Prometheus target records and the Grafana variables;
  - the change detection of `discover_and_update`, in a class `DiscoveryService`, with injected faults for the three file writes of a cycle.

Shared helpers:
- `text.dfy` (module `Text`): the Python `str` operations the core uses;
- `order.dfy` (module `Ordering`): Python's string order, `sorted`, and the sorted list of a set;
- `wrappers.dfy` (module `Wrappers`): `Option` and `Result`.

The HTML normaliser is not idempotent:
- `AssetPaths.NormalizeNotIdempotent` gives a family of inputs, such as `src="/a href="/b"`, on which a second run rewrites the `href` that the first run skipped;
- `AssetPaths.NormalizeFixedPoint` proves the second run changes nothing on text that holds none of `="/`, `<base` and `url(/`.

## Model

| member | source | states |
|---|---|---|
| ReleaseStore.ContentType | cli-tool/deploy_tool/core/aws_manager.py:142-176 | a non-empty MIME guess wins; otherwise the table entry of the lower-cased suffix; otherwise `binary/octet-stream` |
| ReleaseStore.ContentTypeCaseInsensitive | cli-tool/deploy_tool/core/aws_manager.py:150-176 | without a guess, two paths whose suffixes agree up to letter case get the same type |
| ReleaseStore.CacheControl | cli-tool/deploy_tool/core/aws_manager.py:178-193 | each of the four directives is chosen exactly when the lower-cased suffix is in its class (immutable assets, `.html`, data files, everything else) |
| ReleaseStore.CacheControlDefaults | cli-tool/deploy_tool/core/aws_manager.py:183-193 | `.jpeg`, `.webp`, `.eot` and `.mjs` fall to the one-day default |
| ReleaseStore.OrdinarySuffix | cli-tool/deploy_tool/core/aws_manager.py:183-189 | those four suffixes belong to none of the named classes |
| ReleaseStore.SuffixClassesDisjoint | cli-tool/deploy_tool/core/aws_manager.py:183-189 | the three suffix classes of the if/elif chain do not overlap, so its order does not matter |
| ReleaseStore.DirectivesDistinct | cli-tool/deploy_tool/core/aws_manager.py:184-193 | the four directive strings are pairwise different, so the directive identifies the class |
| ReleaseStore.VersionCurrentDiverge | cli-tool/deploy_tool/core/aws_manager.py:198-199 | no key lies both in a version area and in the live area of a project |
| ReleaseStore.Bucket.constructor | cli-tool/deploy_tool/core/aws_manager.py:17-20 | the bucket starts with the given name, region and objects |
| ReleaseStore.Bucket.ListKeys | cli-tool/deploy_tool/core/aws_manager.py:223-229 | the paginated listing returns every key under the prefix, ascending |
| ReleaseStore.Bucket.DeleteObjects | cli-tool/deploy_tool/core/aws_manager.py:234-237 | one request of at most 1000 keys removes exactly those keys |
| ReleaseStore.Bucket.ClearPrefix | cli-tool/deploy_tool/core/aws_manager.py:220-239 | afterwards the bucket is the old one without the keys under the prefix, and every other key is untouched |
| ReleaseStore.Bucket.DeleteKeys | cli-tool/deploy_tool/core/aws_manager.py:231-237 | the batch loop (slices of at most 1000) removes exactly the listed keys |
| ReleaseStore.ClearedByKeys | cli-tool/deploy_tool/core/aws_manager.py:226-237 | deleting the listed keys is clearing the prefix |
| ReleaseStore.Bucket.CopyPrefix | cli-tool/deploy_tool/core/aws_manager.py:241-263 | every object under `src` is copied to the same relative key under `dst`, bytes and headers kept; the count is the number of source objects |
| ReleaseStore.Bucket.CopyKeys | cli-tool/deploy_tool/core/aws_manager.py:248-261 | the copy loop adds one copy per listed key and changes nothing else |
| ReleaseStore.Bucket.ActivateVersion | cli-tool/deploy_tool/core/aws_manager.py:195-218 | the bucket becomes `Activated(old, project, version)` (clear `current/`, then copy); the reply carries the version, the number of copied objects and the website URL |
| ReleaseStore.ActivatedMirrorsVersion | cli-tool/deploy_tool/core/aws_manager.py:195-263 | after activation `current/{rel}` exists exactly when `builds/{version}/{rel}` did, and holds a copy of it |
| ReleaseStore.ActivatedElsewhere | cli-tool/deploy_tool/core/aws_manager.py:195-263 | activation leaves every key outside `current/` as it was |
| ReleaseStore.ActivateIdempotent | cli-tool/deploy_tool/core/aws_manager.py:195-218 | activating the same version twice gives the bucket that activating it once gives |
| ReleaseStore.ActivatedCount | cli-tool/deploy_tool/core/aws_manager.py:207-213 | after activation `current/` holds as many objects as the version, the count the reply reports |
| ReleaseStore.ShiftCard | cli-tool/deploy_tool/core/aws_manager.py:250-252 | moving keys from one prefix to another keeps their number |
| ReleaseStore.ActivateListedDeploys | cli-tool/deploy_tool/commands/rollback.py:39-49 | activating a version that the listing shows (the rollback guard) leaves the project deployed |
| ReleaseStore.ActivateEmptyUndeploys | cli-tool/deploy_tool/core/aws_manager.py:203-207 | activating a version with no objects takes the site down: activation is not guarded |
| ReleaseStore.VersionNames | cli-tool/deploy_tool/core/aws_manager.py:278-283 | the loop over common prefixes yields each non-empty name once, and nothing else |
| ReleaseStore.VersionsOfMeaning | cli-tool/deploy_tool/core/aws_manager.py:268-283 | a version is a non-empty, slash-free name with at least one key under `builds/{name}/` |
| ReleaseStore.PrefixNamesAreVersions | cli-tool/deploy_tool/core/aws_manager.py:278-283 | the non-empty names of the delimiter listing under `builds/` are exactly the versions |
| ReleaseStore.Bucket.ListVersions | cli-tool/deploy_tool/core/aws_manager.py:265-288 | the result is the versions, distinct and in strictly descending order |
| ReleaseStore.Bucket.Status | cli-tool/deploy_tool/core/aws_manager.py:290-309 | deployed exactly when some key is under `current/`; the URL only when deployed; bucket and region echoed |
| ReleaseStore.Bucket.CleanupOldVersions | cli-tool/deploy_tool/core/aws_manager.py:314-329 | with at most `keep` versions nothing changes and 0 is returned; otherwise the areas of `versions[keep:]` are removed and `len - keep` returned |
| ReleaseStore.Bucket.DeleteVersions | cli-tool/deploy_tool/core/aws_manager.py:322-328 | the counted loop clears each doomed version's area and returns how many it cleared |
| ReleaseStore.PrunedVersions | cli-tool/deploy_tool/core/aws_manager.py:325-326 | removing the areas of slash-free versions removes exactly those versions from the listing |
| ReleaseStore.PrunedOutsideBuilds | cli-tool/deploy_tool/core/aws_manager.py:325-326 | cleanup never touches a key outside `builds/` |
| ReleaseStore.PrunedKeepsCurrent | cli-tool/deploy_tool/core/aws_manager.py:314-329 | cleanup leaves `current/` and the deployed status as they were |
| ReleaseStore.CleanupKeepsNewest | cli-tool/deploy_tool/core/aws_manager.py:317-328 | cleanup leaves exactly the `keep` greatest versions, each greater than every deleted one |
| ReleaseStore.ActiveVersionNotProtected | cli-tool/deploy_tool/core/aws_manager.py:314-329 | if the live version is among those deleted, the site stays up while its version leaves the listing |
| ReleaseStore.Bucket.DeployVersion | cli-tool/deploy_tool/core/aws_manager.py:86-140 | no files: `Failed to upload files: No files found in build directory` and no write; otherwise every file uploaded in order, with count, total size and URL returned |
| ReleaseStore.UploadKeyShape | cli-tool/deploy_tool/core/aws_manager.py:105-106 | the key is `{project}/builds/{version}/` then the relative path with `\` turned into `/` |
| ReleaseStore.UploadedStores | cli-tool/deploy_tool/core/aws_manager.py:104-121 | each file is stored at its key with its bytes and headers unless a later file has the same key |
| ReleaseStore.PutsStores | cli-tool/deploy_tool/core/aws_manager.py:113-121 | a write lands unless a later write goes to the same key |
| ReleaseStore.PutsElsewhere | cli-tool/deploy_tool/core/aws_manager.py:113-121 | a key no write goes to keeps its object |
| ReleaseStore.UploadedElsewhere | cli-tool/deploy_tool/core/aws_manager.py:104-121 | a key no file is uploaded to keeps its object |
| ReleaseStore.UploadTouchesOnlyVersion | cli-tool/deploy_tool/core/aws_manager.py:89-121 | upload writes only inside `{project}/builds/{version}/` |
| ReleaseStore.UploadListsVersion | cli-tool/deploy_tool/core/aws_manager.py:89-124 | a non-empty upload of a slash-free version name makes the version listed |
| BuildOrchestrator.DetectByTable | cli-tool/deploy_tool/core/build_manager.py:98-124 | detection is the first row of (vite, next, @angular/core, vue, react-scripts, react) whose marker is a dependency, `(node, dist)` when none is |
| BuildOrchestrator.DetectNode | cli-tool/deploy_tool/core/build_manager.py:108-121 | the framework is `node` exactly when none of the six markers is a dependency |
| BuildOrchestrator.FirstRow | cli-tool/deploy_tool/core/build_manager.py:108-119 | the row found is the first whose marker is a dependency |
| BuildOrchestrator.FirstKept | cli-tool/deploy_tool/core/build_manager.py:85-88 | the manifest found is the first whose path does not contain `node_modules` |
| BuildOrchestrator.FindPackageJson | cli-tool/deploy_tool/core/build_manager.py:78-96 | a root manifest gives `.`; otherwise the first kept manifest, its path written with `/`; none kept is `No package.json found in repository` |
| BuildOrchestrator.NodeModulesRepoFindsNothing | cli-tool/deploy_tool/core/build_manager.py:85-88 | a repository checked out below a `node_modules` directory has every sub-manifest skipped |
| BuildOrchestrator.DetectProjectDirectory | cli-tool/deploy_tool/core/build_manager.py:69-76 | the located project's framework and directory, or `react` at the repository when no manifest is found |
| BuildOrchestrator.ViteMissingMeaning | cli-tool/deploy_tool/core/build_manager.py:164-176 | each vite package is asked for exactly under its own condition, and nothing else is |
| BuildOrchestrator.ReactMissingMeaning | cli-tool/deploy_tool/core/build_manager.py:278-284 | react and react-dom exactly when react is absent; react-scripts exactly when neither react-scripts nor vite is present |
| BuildOrchestrator.MissingViteDeps | cli-tool/deploy_tool/core/build_manager.py:164-176 | the appended list is the catalog entries whose condition holds, in catalog order |
| BuildOrchestrator.ViteSelection | cli-tool/deploy_tool/core/build_manager.py:164-176 | the vite list spelled out entry by entry from the dependencies |
| BuildOrchestrator.VitePlugins | cli-tool/deploy_tool/core/build_manager.py:196-211 | `react()` exactly when react and its plugin are dependencies, `vue()` likewise, in that order |
| BuildOrchestrator.PrepareReact | cli-tool/deploy_tool/core/build_manager.py:267-293 | an unreadable manifest asks for nothing; otherwise the react list, installed with `npm install` only when non-empty |
| BuildOrchestrator.FirstSuccess | cli-tool/deploy_tool/core/build_manager.py:304-341 | the winner is a succeeding rung with no succeeding rung before it; none means every rung failed |
| BuildOrchestrator.FirstSuccessStable | cli-tool/deploy_tool/core/build_manager.py:348-417 | adding later rungs never changes an earlier winner |
| BuildOrchestrator.InstallDependencies | cli-tool/deploy_tool/core/build_manager.py:295-344 | cache clean, then npm ci, npm install, legacy peer deps, and yarn only when available; stops at the first success; all failed gives `Failed to install dependencies: All dependency installation methods failed` |
| BuildOrchestrator.ConfigRestored | cli-tool/deploy_tool/core/build_manager.py:390-415 | a `vite.config.js` present before strategy 4 is present after it, success or failure, with no backup left |
| BuildOrchestrator.StaleBackupRevived | cli-tool/deploy_tool/core/build_manager.py:410-415 | with no config but a stale backup, a failed strategy 4 turns the backup into the live config |
| BuildOrchestrator.BuildTouchesOnlyConfig | cli-tool/deploy_tool/core/build_manager.py:126-150 | a build changes no project file other than `vite.config.js` and its backup, and none at all for a framework other than vite |
| BuildOrchestrator.WrittenConfigKept | cli-tool/deploy_tool/core/build_manager.py:126-150 | a vite build whose preparation wrote `vite.config.js` ends with it in place, whatever the install and build did; other files change only by a consumed backup |
| BuildOrchestrator.FixKeepsPlainHtml | cli-tool/deploy_tool/core/build_manager.py:454-481 | an HTML file without `="/`, `<base` and `url(/` is neither changed nor written |
| BuildOrchestrator.FixKeepsOtherFiles | cli-tool/deploy_tool/core/build_manager.py:443-446 | a file not matching `*.html` is never touched |
| BuildOrchestrator.Workspace.constructor | cli-tool/deploy_tool/core/build_manager.py:126-132 | the project files and any previous output directory as found |
| BuildOrchestrator.Workspace.PrepareVite | cli-tool/deploy_tool/core/build_manager.py:152-211 | the vite list, installed with `npm install --save-dev` when non-empty; the config is written unless that install fails, with plugins from the dependencies read before the install |
| BuildOrchestrator.Workspace.BuildWithFallbacks | cli-tool/deploy_tool/core/build_manager.py:346-418 | standard build, framework command, then two forced-base builds for vite only; stops at the first success; all failed is `All build strategies failed`; the config move of strategy 4 only when it runs |
| BuildOrchestrator.Workspace.FixSingleHtmlFile | cli-tool/deploy_tool/core/build_manager.py:454-484 | the file's text becomes its normalised text, and it is recorded as written exactly when that changed it |
| BuildOrchestrator.Workspace.FixAllAssetPaths | cli-tool/deploy_tool/core/build_manager.py:439-452 | every HTML file is normalised, other files kept, and exactly the changed ones are written |
| BuildOrchestrator.Workspace.VerifyAndFix | cli-tool/deploy_tool/core/build_manager.py:420-437 | true exactly when the output exists and some file's lower-cased suffix is `.html`, `.js` or `.css`; HTML fixed only when there are files |
| BuildOrchestrator.Workspace.BuildProject | cli-tool/deploy_tool/core/build_manager.py:126-150 | install error, build error, missing directory (`Build directory '…' not created`) or the output directory, in that order; the old output is gone unless install and build succeeded and left a directory, which is then the output; the project files are `BuiltFiles` |
| BuildOrchestrator.Workspace.BuildAndPrepare | cli-tool/deploy_tool/core/build_manager.py:25-67 | the result exactly: `Build failed: ` followed by the no-manifest error or the first failing stage's message (`StageError`); otherwise success, whose report (`Reported`) gives the framework, the project path (`.` or the `/`-separated directory), the build directory inside the located project and the file count, with the output's HTML fixed. On success the workspace is as `AfterBuild` says: the project files of `BuiltFiles` and the fresh output with its HTML fixed and the rewritten files recorded. On every failure the repository is removed: no project files and no output remain, and the rewritten record holds what verification wrote before failing |
| BuildOrchestrator.Workspace.RemoveRepository | cli-tool/deploy_tool/core/build_manager.py:494-506 | the repository is deleted (or renamed aside when deletion fails), so the project files and the output are gone |
| BuildOrchestrator.Workspace.BuildAndVerify | cli-tool/deploy_tool/core/build_manager.py:39-46 | build then verify on a located project: the first failing stage's message (install, build, missing directory, no web file), or the output's file and directory count; the workspace afterwards is as `AfterBuild` says, on every path |
| BuildOrchestrator.Workspace.PrepareProject | cli-tool/deploy_tool/core/build_manager.py:134-138 | only a vite project's preparation changes the project files, by writing `vite.config.js` exactly when the manifest is readable and no package is missing or their install succeeded |
| BuildOrchestrator.Workspace.VerifyOutput | cli-tool/deploy_tool/core/build_manager.py:44-48 | the output's HTML is fixed and the changed files recorded; the result is the file and directory count, or `Build failed - no valid content generated` exactly when no file is HTML, JavaScript or CSS |
| BuildOrchestrator.StageError | cli-tool/deploy_tool/core/build_manager.py:39-46 | no stage fails only when the output exists and holds an HTML, JavaScript or CSS file |
| AssetPaths.LastSpacedAttr | cli-tool/deploy_tool/core/build_manager.py:461-467 | the greedy `([^>]*)\s` picks the last whitespace (any character `str.isspace()` accepts) before a quoted root-relative attribute inside the tag |
| AssetPaths.Normalize | cli-tool/deploy_tool/core/build_manager.py:460-476 | the six substitutions in source order; its properties are stated by `NormalizeFixedPoint` and `NormalizeNotIdempotent` |
| AssetPaths.TagPass | cli-tool/deploy_tool/core/build_manager.py:461-467 | one of the three tag substitutions, scanning left to right without overlap; stated by `TagPassIdentity`, `TagPassNoTag` and `LastSpacedAttr` |
| AssetPaths.AttrPass | cli-tool/deploy_tool/core/build_manager.py:470 | the substitution of a quoted root-relative `src`, `href` or `action` value; stated by `AttrPassIdentity`, `RequoteValue` and the two attribute-run lemmas |
| AssetPaths.BasePass | cli-tool/deploy_tool/core/build_manager.py:473 | removal of each `<base …>` up to its first `>`; stated by `BaseRemoved` and `BasePassIdentity` |
| AssetPaths.UrlPass | cli-tool/deploy_tool/core/build_manager.py:476 | `url(/…)` becomes `url(./…)`; stated by `UrlRewrite` and `UrlPassIdentity` |
| AssetPaths.TagPassIdentity | cli-tool/deploy_tool/core/build_manager.py:461-467 | a tag rewrite leaves text without `="/` alone |
| AssetPaths.TagPassNoTag | cli-tool/deploy_tool/core/build_manager.py:461-467 | a tag rewrite leaves text without its tag alone |
| AssetPaths.AttrPassIdentity | cli-tool/deploy_tool/core/build_manager.py:470 | the attribute rewrite leaves text without `="/` alone |
| AssetPaths.BasePassIdentity | cli-tool/deploy_tool/core/build_manager.py:473 | the `<base>` removal leaves text without `<base` alone |
| AssetPaths.UrlPassIdentity | cli-tool/deploy_tool/core/build_manager.py:476 | the `url(/` rewrite leaves text without `url(/` alone |
| AssetPaths.UrlRewrite | cli-tool/deploy_tool/core/build_manager.py:476 | `url(/v)` with no `)` in `v` becomes `url(./v)` and the scan resumes after the `)` |
| AssetPaths.BaseRemoved | cli-tool/deploy_tool/core/build_manager.py:473 | `<base` through its first `>` is removed and the scan resumes after the `>` |
| AssetPaths.NormalizeFixedPoint | cli-tool/deploy_tool/core/build_manager.py:460-476 | text holding none of `="/`, `<base`, `url(/` is a fixed point, so a second run over already plain text changes nothing |
| AssetPaths.AttrPassSkip | cli-tool/deploy_tool/core/build_manager.py:470 | the attribute rewrite copies a prefix in which no match starts |
| AssetPaths.RequoteValue | cli-tool/deploy_tool/core/build_manager.py:470 | a quoted root-relative value gains a `.` and the scan resumes after its closing quote |
| AssetPaths.FirstAttrRun | cli-tool/deploy_tool/core/build_manager.py:470 | on `src="/a href="/b"` the first run rewrites only `src`, swallowing ` href=` into its value |
| AssetPaths.SecondAttrRun | cli-tool/deploy_tool/core/build_manager.py:470 | a second run over that output finds and rewrites the `href` |
| AssetPaths.WithoutTags | cli-tool/deploy_tool/core/build_manager.py:461-467 | text without `<` passes the three tag rewrites unchanged |
| AssetPaths.WithoutBaseOrUrl | cli-tool/deploy_tool/core/build_manager.py:473-476 | text without `<` and `u` passes the last two rewrites unchanged |
| AssetPaths.NormalizeNotIdempotent | cli-tool/deploy_tool/core/build_manager.py:460-476 | on a family of inputs without `<base`, normalising twice differs from normalising once |
| ConfigStore.Entry | cli-tool/deploy_tool/core/config_manager.py:58-61 | under a key of the updates: the new value unless both sides are maps; a map exactly when the new value is one |
| ConfigStore.Merge | cli-tool/deploy_tool/core/config_manager.py:55-62 | the merged keys are the union, and a key the updates do not mention keeps its value |
| ConfigStore.DeepUpdate | cli-tool/deploy_tool/core/config_manager.py:55-62 | the loop over the update keys, recursing into nested maps, yields `Merge(original, updates)` |
| ConfigStore.MergeSelf | cli-tool/deploy_tool/core/config_manager.py:55-62 | merging a configuration into itself changes nothing |
| ConfigStore.MergeIdempotent | cli-tool/deploy_tool/core/config_manager.py:55-62 | applying the same updates twice equals applying them once |
| ConfigStore.LookupAppend | cli-tool/deploy_tool/core/config_manager.py:76-77 | a path is looked up one part after the other |
| ConfigStore.MergeSetsLeaves | cli-tool/deploy_tool/core/config_manager.py:55-62 | every non-map value the updates set is found at its path after the merge |
| ConfigStore.MergeKeepsOtherPaths | cli-tool/deploy_tool/core/config_manager.py:57-61 | a path whose first key the updates do not mention reads the same after the merge |
| ConfigStore.LoadResult | cli-tool/deploy_tool/core/config_manager.py:21-35 | success exactly for a stored document; a missing file is `Failed to load configuration: …`, bad JSON `Invalid JSON in configuration file: …` |
| ConfigStore.Current | cli-tool/deploy_tool/core/config_manager.py:52-53 | the cached document unless the cache is empty, in which case the file is read |
| ConfigStore.ConfigManager.constructor | cli-tool/deploy_tool/core/config_manager.py:13-15 | the manager starts with no cached document |
| ConfigStore.ConfigManager.LoadConfig | cli-tool/deploy_tool/core/config_manager.py:21-35 | the result is `LoadResult`; only a successful read replaces the cache |
| ConfigStore.ConfigManager.SaveConfig | cli-tool/deploy_tool/core/config_manager.py:37-48 | the cache takes the document even when the write fails; the file holds the document on success; a failure is `Failed to save configuration: …`, leaving the file as it was when `open` fails and corrupt when `json.dump` fails after `'w'` emptied it |
| ConfigStore.ConfigManager.UpdateConfig | cli-tool/deploy_tool/core/config_manager.py:50-65 | a load error leaves everything as it was; otherwise the cache becomes the merge, and the file holds it or the write failure's message and file are those of `SaveConfig` |
| ConfigStore.AfterFault | cli-tool/deploy_tool/core/config_manager.py:42-43 | a failed `open` leaves the file; a failed `json.dump` leaves a truncated file that the next load rejects |
| ConfigStore.SaveError | cli-tool/deploy_tool/core/config_manager.py:47-48 | the failure message carries the `Failed to save configuration: ` prefix |
| ConfigStore.Lookup | cli-tool/deploy_tool/core/config_manager.py:72-80 | the value at a key path, `None` when a key is missing or a step meets a non-map (`KeyError`, `TypeError`); stated by `LookupAppend` |
| ConfigStore.LookupOr | cli-tool/deploy_tool/core/config_manager.py:72-80 | the looked-up value or the default; the result of `GetConfigValue` |
| ConfigStore.ConfigManager.GetConfigValue | cli-tool/deploy_tool/core/config_manager.py:67-80 | the value at the dotted path, or the default when a key is missing or a step meets a non-map |
| ConfigCommand.PyIn | cli-tool/deploy_tool/commands/config.py:111 | Python's `k in v`: a key test on a map, a type error on null, bools and numbers |
| ConfigCommand.Assign | cli-tool/deploy_tool/commands/config.py:123 | writing a leaf keeps the keys of every map on the path |
| ConfigCommand.AssignReads | cli-tool/deploy_tool/commands/config.py:123 | the written value is read back at its path |
| ConfigCommand.AssignKeepsOthers | cli-tool/deploy_tool/commands/config.py:123 | every path that parts ways with the written one reads as before |
| ConfigCommand.AssignCreatesNothing | cli-tool/deploy_tool/commands/config.py:110-123 | writing a non-map value creates no path that did not resolve before |
| ConfigCommand.Reach | cli-tool/deploy_tool/commands/config.py:111-121 | the walk gets through the whole path exactly when the path resolves, and the prefix it gets through resolves |
| ConfigCommand.ReachFrom | cli-tool/deploy_tool/commands/config.py:111-121 | a resolving prefix that goes on at `i` reaches past `i`; one that stops at `i` reaches exactly `i` |
| ConfigCommand.SetStop | cli-tool/deploy_tool/commands/config.py:111-121 | where the walk stops, the message: `'k' is not a section` after a non-map, `'k' does not exist` at a missing intermediate key, `Invalid key: … does not exist under …` at the last key, and a type error only on a non-map section |
| ConfigCommand.SetWalk | cli-tool/deploy_tool/commands/config.py:108-121 | the walk stops exactly when the path does not resolve, and then with the message of the first position where the lookup stops (`SetStop`) |
| ConfigCommand.SetCommand | cli-tool/deploy_tool/commands/config.py:86-128 | the outcome and the file exactly: the rejections in source order (no config, short key, bad section, then the walk's message); saved exactly when the path resolves and the write succeeds, with the leaf replaced by the parsed value; after a failed write, the save error and the file `AfterFault` gives |
| ConfigCommand.GetStop | cli-tool/deploy_tool/commands/config.py:154-158 | a path that does not resolve ends in the `not found` warning or a type error |
| ConfigCommand.GetWalk | cli-tool/deploy_tool/commands/config.py:154-162 | the value is shown exactly when the path resolves; otherwise the warning when the `in` test where the lookup stops is false, a type error when it raises or when indexing a string or list follows |
| ConfigCommand.GetCommand | cli-tool/deploy_tool/commands/config.py:131-165 | the rejections in source order, then the value at the path exactly when it resolves |
| ConfigCommand.SetThenGet | cli-tool/deploy_tool/commands/config.py:97-162 | a key `set` accepts stays acceptable and `get` then shows the written value |
| ConfigCommand.ParseValue | cli-tool/deploy_tool/commands/config.py:168-181 | a boolean exactly for `true`/`false` in any letter case, with the right truth value; otherwise an integer or the text unchanged |
| ConfigCommand.ParseInt | cli-tool/deploy_tool/commands/config.py:173-174 | `int()` of text: Python whitespace around an optional sign and decimal digits with single underscores; stated by `ParseIntOfText` |
| ConfigCommand.ParseIntOfText | cli-tool/deploy_tool/commands/config.py:173-174 | `int()` reads the decimal text of every integer back |
| ConfigCommand.ParseIntText | cli-tool/deploy_tool/commands/config.py:168-176 | the decimal text of an integer parses to that integer |
| GithubUrl.ValidateGithubUrl | cli-tool/deploy_tool/core/utils.py:62-68 | `re.match` of the HTTPS or the SSH pattern; characterised by `RenderValid` and `ValidParses` |
| GithubUrl.ExtractRepoNameAsWritten | cli-tool/deploy_tool/core/utils.py:70-82 | the HTTPS capture with every `.git` removed, else the SSH capture, else `unknown-project`; stated by `HttpsName` and `AsWrittenCutsInnerGit` |
| GithubUrl.ExtractRepoName | cli-tool/deploy_tool/core/utils.py:70-82 | the same with only a trailing `.git` removed; stated by `HttpsNameWithOrWithoutGit`, `SshName` and `ValidNamesRepository` |
| GithubUrl.RenderValid | cli-tool/deploy_tool/core/utils.py:62-68 | every well-formed HTTPS or SSH repository URL is accepted, also followed by one newline |
| GithubUrl.ValidParses | cli-tool/deploy_tool/core/utils.py:62-68 | every accepted URL is a well-formed repository URL, possibly followed by one newline |
| GithubUrl.ValidParsesHttps | cli-tool/deploy_tool/core/utils.py:65 | the HTTPS pattern accepts exactly prefix, owner, `/`, repository and an optional `/` |
| GithubUrl.ValidParsesSsh | cli-tool/deploy_tool/core/utils.py:66 | the SSH pattern accepts exactly `git@github.com:`, owner, `/`, repository and `.git` |
| GithubUrl.HttpsCapture | cli-tool/deploy_tool/core/utils.py:73 | a capture is a non-empty run of name characters |
| GithubUrl.SshCapture | cli-tool/deploy_tool/core/utils.py:78 | a capture is a non-empty run of name characters |
| GithubUrl.HttpsCaptures | cli-tool/deploy_tool/core/utils.py:73 | the HTTPS search captures the repository segment of an HTTPS URL |
| GithubUrl.SshCaptures | cli-tool/deploy_tool/core/utils.py:78 | the SSH search captures the repository name of an SSH URL |
| GithubUrl.SshMissesHttps | cli-tool/deploy_tool/core/utils.py:73-80 | the HTTPS search finds nothing in an SSH URL, so the SSH branch decides |
| GithubUrl.ValidNamesRepository | cli-tool/deploy_tool/core/utils.py:62-82 | no accepted URL falls through to `unknown-project` |
| GithubUrl.HttpsName | cli-tool/deploy_tool/core/utils.py:73-75 | for an HTTPS URL, the code as written removes every `.git` from the repository segment; the corrected extraction removes one trailing `.git` |
| GithubUrl.HttpsNameWithOrWithoutGit | cli-tool/deploy_tool/core/utils.py:73-75 | with the corrected extraction, `…/repo` and `…/repo.git` name the same repository |
| GithubUrl.SshName | cli-tool/deploy_tool/core/utils.py:77-80 | the name of an SSH URL is its repository name, with either extraction |
| GithubUrl.AsWrittenCutsInnerGit | cli-tool/deploy_tool/core/utils.py:73-75 | as written, `…/.github` yields `hub`; the corrected extraction yields `.github` |
| Discovery.DetectFramework | monitoring/discovery-service/s3_discovery.py:155-172 | the heuristic always names a framework (never `unknown`) |
| Discovery.FrameworkOfSameKeys | monitoring/discovery-service/s3_discovery.py:155-172 | the verdict depends only on the set of keys, not their order or repetitions |
| Discovery.SameTests | monitoring/discovery-service/s3_discovery.py:157-170 | each of the five tests that holds of a listing holds of any listing with at least its keys |
| Discovery.FrameworkSurvivesMoreFiles | monitoring/discovery-service/s3_discovery.py:155-172 | adding files never turns a recognised framework back into `static` |
| Discovery.NoScriptsNoBundler | monitoring/discovery-service/s3_discovery.py:160-172 | without a `.js` file name only `nextjs` or `static` is possible |
| Discovery.FileNameOfKey | monitoring/discovery-service/s3_discovery.py:157 | a key's file name is what follows its last `/` |
| Discovery.ChunkDirectoryIgnored | monitoring/discovery-service/s3_discovery.py:157-161 | `chunk` in a directory name alone never gives `react` |
| Discovery.NextDirectoryDetected | monitoring/discovery-service/s3_discovery.py:157-164 | a file below a `_next` directory gives `nextjs` unless its name holds `chunk` |
| Discovery.ListingLive | monitoring/discovery-service/s3_discovery.py:125-130 | the detail listing holds only live keys of the project |
| Discovery.ListingMeaning | monitoring/discovery-service/s3_discovery.py:125-131 | the detail listing is the live keys ascending: all of them up to 1000, otherwise the 1000 smallest |
| Discovery.Probe | monitoring/discovery-service/s3_discovery.py:106-117 | the one-key probe finds an object under `{project}/current/`, false when the call fails; used by `FoundProjects` and `DiscoveredAreLive` |
| Discovery.Info | monitoring/discovery-service/s3_discovery.py:119-153 | the record of one project: zeros and `unknown` when the listing fails, otherwise the count, size and framework of the first listing page; stated by `InfoCount` and `DiscoveredWebsites` |
| Discovery.InfoCount | monitoring/discovery-service/s3_discovery.py:119-131 | a project with at most 1000 live objects is reported with exactly that count and its website URL |
| Discovery.Delivered | monitoring/discovery-service/s3_discovery.py:87-102 | a failing listing delivers a prefix of the top-level prefixes; a complete listing delivers all |
| Discovery.Scan | monitoring/discovery-service/s3_discovery.py:87-98 | at most one record per top-level prefix |
| Discovery.ScanRecords | monitoring/discovery-service/s3_discovery.py:87-98 | each record describes a live project with a non-empty name |
| Discovery.FoundProjects | monitoring/discovery-service/s3_discovery.py:89-98 | one prefix contributes its stripped name exactly when that is non-empty and the probe finds an object |
| Discovery.ScanProjects | monitoring/discovery-service/s3_discovery.py:87-98 | a project is among the records exactly when its name is non-empty, its probe succeeds and some scanned prefix names it |
| Discovery.TopPrefixShape | monitoring/discovery-service/s3_discovery.py:88-89 | a top-level prefix is a slash-free name followed by `/` |
| Discovery.LiveProjectPrefix | monitoring/discovery-service/s3_discovery.py:80-89 | a live, slash-free project has a top-level prefix |
| Discovery.DiscoveredAreLive | monitoring/discovery-service/s3_discovery.py:88-117 | a discovered project has a non-empty, slash-free name, a succeeding probe and something under `current/` |
| Discovery.LiveAreDiscovered | monitoring/discovery-service/s3_discovery.py:80-98 | with a complete top-level listing, every such live project is discovered |
| Discovery.CompleteListing | monitoring/discovery-service/s3_discovery.py:80-98 | with a complete top-level listing, every top-level prefix is scanned |
| Discovery.LiveProjectNamed | monitoring/discovery-service/s3_discovery.py:80-89 | a live, slash-free project is named by some top-level prefix |
| Discovery.LiveRecordDiscovered | monitoring/discovery-service/s3_discovery.py:87-98 | with a complete listing, a live project's own record is among those discovered |
| Discovery.ActivationIsDiscovered | monitoring/discovery-service/s3_discovery.py:119-153 | after activating a listed version of at most 1000 objects, the next cycle reports the project with the version's object count and its website URL |
| Discovery.Targets | monitoring/discovery-service/s3_discovery.py:176-189 | one target per deployment, in order |
| Discovery.WebsiteTarget | monitoring/discovery-service/s3_discovery.py:179-189 | a website record's target probes its URL and carries the six labels with `production` and `true` |
| Discovery.TargetProjects | monitoring/discovery-service/s3_discovery.py:178-189 | the project labels of the targets are the projects of the deployments |
| Discovery.DiscoveredWebsites | monitoring/discovery-service/s3_discovery.py:121-153 | every discovered record has its project's website URL and type `website` |
| Discovery.WebsiteTargets | monitoring/discovery-service/s3_discovery.py:176-189 | the targets of website records probe their projects' websites and carry the fixed labels |
| Discovery.DiscoveredTargets | monitoring/discovery-service/s3_discovery.py:174-189 | each discovered project has its target, and no other target is written |
| Discovery.ProjectList | monitoring/discovery-service/s3_discovery.py:205 | the project names of the deployments, in order |
| Discovery.VariablesMeaning | monitoring/discovery-service/s3_discovery.py:203-215 | projects sorted, one per deployment; frameworks sorted without duplicates; the total is the deployment count |
| Discovery.DiscoveryService.constructor | monitoring/discovery-service/s3_discovery.py:21-39 | the service starts with an empty snapshot, no files written and zero metrics |
| Discovery.DiscoveryService.GetDeploymentInfo | monitoring/discovery-service/s3_discovery.py:119-153 | the record `Info` of the project: counts, size and framework of its listing, or zeros and `unknown` when the listing fails |
| Discovery.DiscoveryService.DiscoverDeployments | monitoring/discovery-service/s3_discovery.py:74-104 | the records of the delivered top-level prefixes, in listing order |
| Discovery.DiscoveryService.ScanPrefixes | monitoring/discovery-service/s3_discovery.py:87-98 | the loop appends each prefix's record in turn |
| Discovery.DiscoveryService.FindDeployment | monitoring/discovery-service/s3_discovery.py:89-98 | one prefix yields its record exactly when its name is non-empty and the probe finds an object |
| Discovery.DiscoveryService.UpdatePrometheusTargets | monitoring/discovery-service/s3_discovery.py:174-201 | the targets file holds the target list of the deployments, is kept when its `open` fails and is left empty when its `json.dump` fails; the method raises exactly when the targets write or the backup write fails |
| Discovery.DiscoveryService.UpdateGrafanaVariables | monitoring/discovery-service/s3_discovery.py:203-219 | the variables file holds the variables of the deployments stamped with the current time, with the same outcome of a failing write; it raises exactly when the write fails |
| Discovery.DiscoveryService.DiscoverAndUpdate | monitoring/discovery-service/s3_discovery.py:41-72 | the files and a reload change only when the set of project names differs from the snapshot. When no write raises, the snapshot and the gauge follow the cycle. A raising write skips the rest of the cycle: the snapshot, the gauge and the reloads keep their values, the error counter goes up, and the files are as far as the writes got |
| Discovery.DiscoveryService.PublishChange | monitoring/discovery-service/s3_discovery.py:52-62 | the branch of a changed cycle: with no fault both files hold the new content, one reload is requested and the snapshot becomes the new project names; a fault raises, leaves the reloads and the snapshot as they were, and leaves each file as far as its write got |
| Text.NameSuffix | cli-tool/deploy_tool/core/aws_manager.py:150 | the suffix is empty or a dot-led, proper ending of the name |
| Text.ReplaceCharIsReplaceAll | cli-tool/deploy_tool/core/aws_manager.py:106 | replacing `\` by `/` with the general scan is the character-wise replacement |
| Text.TrimSlash | monitoring/discovery-service/s3_discovery.py:89 | `rstrip('/')` of a slash-free segment followed by `/` gives the segment |
| Text.JoinSplit | cli-tool/deploy_tool/commands/config.py:97 | joining the parts of a split on `.` gives the key back |
| Text.SplitJoin | cli-tool/deploy_tool/commands/config.py:120 | splitting a join of dot-free parts gives the parts back |
| Ordering.SortAscAscending | monitoring/discovery-service/s3_discovery.py:205 | `sorted` orders its result |
| Ordering.SortSet | monitoring/discovery-service/s3_discovery.py:206 | the sorted list of a set is its unique strictly ascending listing |
| Ordering.SortDescDistinct | cli-tool/deploy_tool/core/aws_manager.py:285 | `sorted(…, reverse=True)` of distinct names is the strictly descending list of their set |

## Left out

- S3, npm, npx, yarn, the file system and `mimetypes.guess_type` are not called. The bucket is an in-memory map, command outcomes are boolean inputs, and the MIME guess is a function input.
- Bucket website and policy setup (`_setup_website_hosting`) and credential checks are network side effects and are not modelled.
- ReleaseStore.Bucket.ClearPrefix: the in-memory bucket never fails to list or delete, so the swallowed-error path is not modelled.
- ReleaseStore.Bucket.ActivateVersion: activation is modelled as the two steps it is (clear, then copy), but a failure between them (a site left empty) is not modelled, because copies never fail here.
- ReleaseStore.Bucket.DeployVersion: a failed upload part-way through is not modelled; uploads always succeed.
- ReleaseStore.Bucket.Status: the `{'is_deployed': False, 'error': …}` reply to a failing listing is not modelled.
- ReleaseStore.Bucket.ListVersions: pagination is one loop over all common prefixes; the `Failed to list versions` error is not modelled.
- ReleaseStore.Bucket.CleanupOldVersions: `keep` is a natural number; the negative counts that Python's slicing would treat from the end are not modelled.
- Version names are compared in Python's code-point order. Versions are timestamps, so this order is creation order. S3 lists keys in UTF-8 byte order, which agrees with code-point order.
- The rollback command's membership guard is not a precondition of `ActivateVersion`, because the store itself does not require it. It is the hypothesis of `ActivateListedDeploys`; `ActivateEmptyUndeploys` shows what happens without it.
- The generated `vite.config.js` text is modelled only by its plugin list. The minimal fallback config and its write failure are not modelled.
- Directory sizes, `format_file_size` and the background cleanup thread of the build step are not modelled: they are file-system and timing code.
- BuildOrchestrator.Workspace.RemoveRepository: when both the deletion and the renaming aside fail, the source leaves the repository in place, possibly half deleted; the model always removes it, because what a failed `rmtree` leaves behind is not determined.
- BuildOrchestrator.Workspace.BuildProject: a failing build command is taken to leave no partial output directory, so after an install or build error there is no output at all.
- BuildOrchestrator.Workspace.BuildAndPrepare: the total file count is the number of output files plus sub-directories, as `rglob('*')` counts both. The size of the output is not modelled.
- BuildOrchestrator.Workspace.FixSingleHtmlFile: read and write errors of an HTML file, which the source reports and skips, are not modelled.
- ConfigStore: floating-point JSON numbers are not part of `Value`, and a configuration file whose top level is not an object is not modelled. JSON parsing itself is an input (`Disk`).
- ConfigStore.DeepUpdate: the result is a new map. The Python version mutates the original in place, and a nested map taken over from the updates is shared with them afterwards; that aliasing is not modelled.
- ConfigStore.Current: an empty cached document counts as "not cached", as `if not self.config_data` does, so the file is read again.
- ConfigCommand.ParseValue: the float branch is left out, so text such as `1.5` stays a string here. `int()` accepts Python whitespace (what `str.isspace()` accepts) around an optional sign and ASCII digits with single underscores; non-ASCII digits are not modelled.
- `str.lower()` is modelled as ASCII lower-casing (`Text.Lower`); non-ASCII letters are left as they are. The suffix tables, `true` and `false` are ASCII; the Kelvin sign, which Python lower-cases to `k`, is the one letter this could matter for.
- GithubUrl: Python's `\w` also matches non-ASCII letters and digits; `IsNameChar` accepts only ASCII letters, digits and `_`. `$` also matches before one final newline, which the model keeps (`Chomp`).
- Discovery.DiscoveryService.GetDeploymentInfo: the `last_modified` text is an input (`stamp`), not the newest object timestamp or the clock.
- Discovery: the detail listing is one unpaginated call, so at most 1000 objects are counted, as in the source. The top-level listing is one loop over all pages. If it fails, the records found so far are returned.
- Discovery: the target backup file (only a failure to write it is modelled), the Prometheus reload request (counted, not sent), the metrics server, the `last_discovery_timestamp` gauge and the polling loop are not modelled. The current time is an input (`now`).

## Findings

| source | as written | input that shows it | evidently intended | confidence | as-written member | corrected member |
|---|---|---|---|---|---|---|
| cli-tool/deploy_tool/core/utils.py:73-75 | `.replace('.git', '')` removes every `.git` in the captured repository segment | `https://github.com/owner/.github` gives `hub`; `https://github.com/owner/my.github.io` gives `myhub.io` | remove only a trailing `.git` | high; not executed | GithubUrl.ExtractRepoNameAsWritten, GithubUrl.AsWrittenCutsInnerGit | GithubUrl.ExtractRepoName, GithubUrl.HttpsNameWithOrWithoutGit |
