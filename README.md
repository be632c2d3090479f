# test-cli core, modelled in Dafny

This project models the core of the `test-cli` scaffolding tool (npm scope
`@estayjs`). The tool maps a sub-command to an npm package. It keeps that
package installed and current in a versioned local cache, then runs the
package's entry file in a child `node` process, passing the command's
arguments. The one command provided, `init`, prepares a project directory.

The project has one module per source file:

- `Utils` (`utils.dfy`) models `packages/utils`:
  - the plain-object test;
  - path-separator normalisation;
  - the platform-dependent `spawn` command line;
  - the `spawnAsync` promise.
- `UtilNpm` (`util_npm.dfy`) models `packages/util-npm`:
  - registry selection;
  - the package-document lookup;
  - the version list;
  - the newest version, and the newest version above a base.
- `PackageCache` (`package_cache.dfy`) models `packages/package`. The
  `Package` class has a mutable `packageVersion`. Its `Prepare`, `Exists`,
  `Install` and `Update` act on a `Host`, which holds:
  - the set of existing paths;
  - logs of mkdirp and npminstall requests;
  - the registry fetch;
  - what the `package.json` search finds.
- `DynamicExec` (`dynamic_exec.dfy`) models `packages/dynamic-exec`:
  - command-to-package mapping;
  - the cached and local modes;
  - stripping the commander object;
  - the child-process code string and its exit code.
- `CommandBase` (`command.dfy`) models `packages/command`:
  - argv validation;
  - the runtime version check;
  - the four-step lifecycle chain, which stops at the first failure and
    logs it.
- `CommandInit` (`command_init.dfy`) models `packages/command-init`:
  - `init`, `prepare` and `exec` of the init command;
  - the directory-emptiness test;
  - the confirm-and-empty flow;
  - the later project-description steps.

Supporting modules:

- `Js` (`js.dfy`) holds the JavaScript values, truthiness, property reads and
  the errors the core throws.
- `Semver` (`semver.dfy`) holds versions as `major.minor.patch` triples,
  their precedence, and their rendering as `"M.m.p"` text.
- `Wrappers` (`wrappers.dfy`) holds `Option` and `Result`.

Promises are modelled by how they end:

- an `Option<Error>` or `Result` for a promise that settles;
- `StepOutcome.Stalled` / `PrepareOutcome.NeverSettles` for a promise that
  never settles.

Prompts, the environment, the platform and the registry are parameters or
fields of `Host`.

The code is followed where it departs from the intended behaviour:

- `isValidProjectName` is imported from `@estayjs/utils`, which does not
  export it. The call is made inside an `async` promise executor, so the
  TypeError becomes an unhandled rejection. The promise `prepare` returns
  never settles, and the init command's chain stalls there (`Prepared`,
  `InitAndRun`). The steps after that call are modelled as functions
  (`FilterByTag`, `ProjectPrompts`, `MergeProjectInfo`, `WithClassName`).
- `_options` is never assigned, so `force` is always unset. A rejected
  `prepare` makes `exec` throw a TypeError when it reads
  `this._options.debug` (`ExecOutcome`).
- `fse.mkdirp` in `prepare` is not awaited. The model performs it at once.

## Model

| member | source | states |
|---|---|---|
| Utils.IsObject | packages/utils/lib/index.js:5-7 | true exactly for plain objects; arrays, null, functions and primitives are rejected |
| Utils.ReplaceBackslashes | packages/utils/lib/index.js:16 | keeps the length, leaves no backslash, turns every backslash into '/' and keeps every other character |
| Utils.ReplaceBackslashesFixes | packages/utils/lib/index.js:16 | a string without backslashes is left unchanged |
| Utils.SystemPathFormat | packages/utils/lib/index.js:10-20 | non-strings and the empty string pass through; with separator '/' the path is unchanged; otherwise only backslashes change, each into '/' |
| Utils.SystemPathFormatIdempotent | packages/utils/lib/index.js:10-20 | formatting an already formatted path changes nothing |
| Utils.Spawn | packages/utils/lib/index.js:23-28 | on win32 starts `cmd.exe` with `/c`, the command and its arguments; elsewhere the command with its arguments unchanged; absent options become `{}` |
| Utils.SpawnAsync | packages/utils/lib/index.js:31-41 | resolves with the exit code exactly when the child exits; rejects when it cannot be started |
| Semver.GtIsStrictTotalOrder | packages/util-npm/lib/index.js:37 | the precedence the sort comparator uses is irreflexive, transitive and total on distinct versions |
| Semver.DigitsInjective | packages/package/lib/index.js:31-37 | different numbers render as different decimal strings |
| Semver.RenderInjective | packages/package/lib/index.js:31-37 | different versions render as different version strings |
| Semver.RenderStartsWithDigit | packages/package/lib/index.js:46-48 | a rendered version starts with a digit, so it is never the tag 'latest' |
| UtilNpm.DefaultRegistry | packages/util-npm/lib/index.js:55-57 | the npmjs registry exactly when the original registry is asked for, the taobao mirror otherwise |
| UtilNpm.InfoUrl | packages/util-npm/lib/index.js:8-9 | the default registry is used exactly when no registry is given |
| UtilNpm.NpmInfo | packages/util-npm/lib/index.js:6-21 | no request for an empty name; a request without a response rejects, and so does any status outside 2xx (axios's default status validation); a 200 response yields its document, or null when the body is empty; any other 2xx status yields null |
| UtilNpm.VersionsOf | packages/util-npm/lib/index.js:26-30 | a document yields the keys of its `versions`; undefined or null yields no versions |
| UtilNpm.NpmVersions | packages/util-npm/lib/index.js:24-31 | the versions the document lists, none without a document; a rejection propagates |
| UtilNpm.Greatest | packages/util-npm/lib/index.js:37 | the head of the list sorted newest first: an element of the list that no element exceeds |
| UtilNpm.Newest | packages/util-npm/lib/index.js:36-39 | null exactly for an empty list, otherwise a listed version no listed version exceeds |
| UtilNpm.NewestIsUnique | packages/util-npm/lib/index.js:36-39 | a listed version that no listed version exceeds is exactly the one the head of the sorted list gives |
| UtilNpm.NpmLatestVersion | packages/util-npm/lib/index.js:34-40 | rejects exactly when the lookup does; null exactly when nothing is published; otherwise a published version of highest precedence |
| UtilNpm.Above | packages/util-npm/lib/index.js:45-46 | exactly the versions that satisfy the range `>base` |
| UtilNpm.NewestAbove | packages/util-npm/lib/index.js:45-51 | null exactly when no version is above base; otherwise a version above base that no version above base exceeds |
| UtilNpm.NpmSemverVersion | packages/util-npm/lib/index.js:43-52 | rejects exactly when the lookup does; otherwise the newest published version above base |
| PackageCache.Resolved | packages/package/lib/index.js:46-48 | a published version resolves to its version text and nothing published to null; never to the tag 'latest' |
| PackageCache.ReplaceFirst | packages/package/lib/index.js:28 | only the first occurrence is replaced; length and every other character are kept |
| PackageCache.CachePrefix | packages/package/lib/index.js:28 | the package name with the same length; its first '/' becomes '_' and every other character, later '/' included, is kept |
| PackageCache.CacheEntryPath | packages/package/lib/index.js:31-37 | the entry lies directly in the store: the store, `/_`, the prefix, `@`, the version text, `@` and the package name, each readable back from its place |
| PackageCache.CacheEntryPathDeterminesVersion | packages/package/lib/index.js:31-37 | two cache paths of one package coincide exactly when their version texts coincide |
| PackageCache.ResolvedVersionsHaveDistinctEntries | packages/package/lib/index.js:31-37 | two different published versions never share a cache entry |
| PackageCache.CheckOptions | packages/package/lib/index.js:12-29 | falsy options and non-objects are rejected with their own errors; an object without a string package name fails with a TypeError; otherwise the fields are read |
| PackageCache.Host.Mkdirp | packages/package/lib/index.js:42-44 | the directory is requested and then exists; no other path changes |
| PackageCache.Host.NpmInstall | packages/package/lib/index.js:63-73 | every request is logged; it succeeds unless the host rejects it, and success creates the request's cache entry |
| PackageCache.EntryFile | packages/package/lib/index.js:101-112 | found exactly when an enclosing package directory declares a non-empty main; the result is `dir/main` put through systemPathFormat for the host's separator: unchanged for '/', otherwise the same length with every backslash turned into '/' |
| PackageCache.Package.constructor | packages/package/lib/index.js:12-29 | the fields are the checked options and the cache prefix is the name with its first '/' replaced by '_' |
| PackageCache.Package.SpecificCacheFilePath | packages/package/lib/index.js:35-37 | the cache entry of a version lies inside the store directory |
| PackageCache.Package.SpecificPathsDistinguishVersions | packages/package/lib/index.js:35-37 | two versions have the same cache entry exactly when their texts agree |
| PackageCache.Package.CacheFilePath | packages/package/lib/index.js:31-33 | the getter's path is the specific cache entry of the current version |
| PackageCache.Package.PreparedVersion | packages/package/lib/index.js:46-48 | 'latest' becomes the resolved registry answer and fails, with the lookup's error, exactly when the lookup fails; any other value is kept |
| PackageCache.Package.PreparedLatestIsNewest | packages/package/lib/index.js:46-47 | a prepared 'latest' is null exactly when the registry lists no version, and otherwise the text of a listed version no listed version exceeds |
| PackageCache.Package.InstalledPathIsCacheEntry | packages/package/lib/index.js:61-74 | what npminstall creates for a version is exactly that version's cache entry |
| PackageCache.Package.Prepare | packages/package/lib/index.js:39-49 | a missing store directory is created; 'latest' is replaced by the resolved version; nothing else changes |
| PackageCache.Package.Exists | packages/package/lib/index.js:51-59 | cached mode prepares, then reports whether the prepared version's cache entry exists, or prepare's error; local mode reports whether the target path exists and changes nothing |
| PackageCache.Package.Install | packages/package/lib/index.js:61-74 | prepares, then issues exactly one npminstall request for the prepared version into root, store and default registry |
| PackageCache.Package.Update | packages/package/lib/index.js:76-97 | prepares and looks up the latest version; without a store directory the path computation then throws a TypeError; otherwise installs the latest version and records it only when its entry is missing; on success the latest entry exists and the version is no longer 'latest' |
| PackageCache.Package.RootFilePath | packages/package/lib/index.js:100-118 | the entry file is searched from the cache entry in cached mode and from the target path otherwise |
| PackageCache.UpdateTwice | packages/package/lib/index.js:76-97 | an update right after a successful one succeeds, installs nothing and keeps the version |
| PackageCache.InstallThenExists | packages/package/lib/index.js:51-74 | after a successful install in cached mode, exists reports true |
| DynamicExec.PackageFor | packages/dynamic-exec/lib/index.js:8-10 | only `init` maps to a package, `@estayjs/command-init` |
| DynamicExec.CommandName | packages/dynamic-exec/lib/index.js:20-21 | the name is the string `_name` of the commander object, when there is one |
| DynamicExec.PublicProps | packages/dynamic-exec/lib/index.js:62-68 | exactly the properties whose keys neither start with '_' nor are 'parent' |
| DynamicExec.PublicPropsAppend | packages/dynamic-exec/lib/index.js:62-68 | stripping one more property appends it exactly when its key is kept |
| DynamicExec.StripCommand | packages/dynamic-exec/lib/index.js:58-69 | the last argument becomes an object with exactly its kept properties, in order; the other arguments are unchanged |
| DynamicExec.ChildCode | packages/dynamic-exec/lib/index.js:71 | the code requires the entry file and calls it with the serialised arguments, each readable back from its place in the string |
| DynamicExec.TargetPathFor | packages/dynamic-exec/lib/index.js:27 | the install root is the `dependencies` directory inside the CLI home |
| DynamicExec.StoreDirFor | packages/dynamic-exec/lib/index.js:28 | the store is the `node_modules` directory inside the install root |
| DynamicExec.ExitCode | packages/dynamic-exec/lib/index.js:77-86 | the parent's own 'exit' and 'error' handlers exit with the child's code, or 1 when the child cannot be started; this agrees with how spawnAsync would settle |
| DynamicExec.DispatchOptionsChecked | packages/dynamic-exec/lib/index.js:25-52 | the options built for a known command always pass the Package checks, in both modes; for an unknown command they fail with a TypeError |
| DynamicExec.Refresh | packages/dynamic-exec/lib/index.js:37-43 | update runs exactly when exists answers true and install exactly when it answers false; when exists throws, neither runs and its error is returned; update installs the latest version exactly when its entry is missing; install requests the prepared version; at most one install request is added; the store directory is created when missing, a successful install adds the entry of the version now current, no path is removed, and after any successful update or install that entry exists |
| DynamicExec.Dispatch | packages/dynamic-exec/lib/index.js:12-92 | an unknown command fails before touching anything; local mode installs nothing and cannot fail once the package is built; in cached mode a failing exists fails the run with its error, an existing latest version is updated without any install and the run goes on, and a missing one gets exactly one install of the latest version, failing exactly when that install is rejected; the paths afterwards are the old ones, the store directory and, after a successful install, the new entry, and on success the latest entry exists; the child runs exactly when an entry file exists, with the stripped arguments, and its exit code is taken |
| CommandBase.ChainOf | packages/command/lib/index.js:23-32 | the outcomes are the step results up to and including the first one that is not fulfilled, or all of them; they run a prefix of the lifecycle |
| CommandBase.ChainPrefixIsRun | packages/command/lib/index.js:23-32 | from any step, the chain runs consecutive steps, all fulfilled except possibly the last, and stops early only at a failure |
| CommandBase.CheckArgv | packages/command/lib/index.js:13-21 | accepted exactly when argv is a non-empty array; falsy, non-array and empty argv each fail with their own error |
| CommandBase.NodeVersionCheck | packages/command/lib/index.js:35-39 | throws exactly when the runtime is below 12.0.0 |
| CommandBase.Command.constructor | packages/command/lib/index.js:10-22 | keeps argv; no step has run and nothing is logged |
| CommandBase.Command.InitArgs | packages/command/lib/index.js:42-46 | always fulfilled |
| CommandBase.Command.Init | packages/command/lib/index.js:49-51 | always throws the not-implemented error |
| CommandBase.Command.Exec | packages/command/lib/index.js:54-56 | always throws the not-implemented error |
| CommandBase.Command.Run | packages/command/lib/index.js:23-32 | the chain of a plain command stops at the version check or at init, and logs exactly that error |
| CommandInit.VisibleEntries | packages/command-init/lib/index.js:186 | exactly the entries that neither start with '.' nor are `node_modules` |
| CommandInit.IsDirEmpty | packages/command-init/lib/index.js:184-188 | empty exactly when every entry is hidden or `node_modules` |
| CommandInit.Prepared | packages/command-init/lib/index.js:34-92 | the directory is emptied only when it has visible entries and the deletion was confirmed; with force set, the continue question is not asked; declining resolves with nothing, after the continue question alone, and changes nothing; each question is asked at most once, continue before delete, and no other question is reached; once past the continue question (or with force set), the deletion is asked and the directory is emptied exactly when it is confirmed; every other path never settles |
| CommandInit.ExecOutcome | packages/command-init/lib/index.js:21-32 | fulfilled after a resolved prepare; stalled after a stalled one; after a rejection it throws exactly when the options are nullish |
| CommandInit.InitCommand.constructor | packages/command/lib/index.js:10-22 | a fresh base command with argv, no options, no steps run and nothing logged |
| CommandInit.InitCommand.Init | packages/command-init/lib/index.js:16-19 | the project name is the first argument, or '' without one; force comes from the options |
| CommandInit.InitCommand.Prepare | packages/command-init/lib/index.js:34-92 | the outcome, the questions asked and the resulting directory are those of `Prepared`; the template list is recorded |
| CommandInit.InitCommand.Exec | packages/command-init/lib/index.js:21-32 | ends as `ExecOutcome` of the prepare and logs a rejected prepare's error |
| CommandInit.InitCommand.Run | packages/command/lib/index.js:23-32 | the chain with the init command's steps: it stops at an old runtime, otherwise runs all four steps, records the default templates, and logs what exec and the chain log; on an old runtime the command's fields are untouched |
| CommandInit.NewInitCommand | packages/command-init/lib/index.js:191-193 | builds a command exactly when argv passes the checks, and reports the checks' error otherwise |
| CommandInit.InitAndRun | packages/command-init/lib/index.js:14-92 | on a supported runtime nothing is logged; the run ends as a decline exactly when the directory has visible entries and the user does not continue, otherwise it stalls at the project-name check; a directory with visible entries is emptied exactly when the user continues and confirms the deletion; a directory with only hidden entries is neither questioned nor changed; the questions and the resulting directory are exactly those of `Prepared` with force unset |
| CommandInit.FilterByTag | packages/command-init/lib/index.js:108-109 | exactly the templates tagged with the chosen type |
| CommandInit.FilterByTagAppend | packages/command-init/lib/index.js:108-109 | filtering keeps order and multiplicity: a template added at the end appears at the end of the result exactly when it carries the tag |
| CommandInit.NpmNames | packages/command-init/lib/index.js:162-165 | one choice per template, its npm name, in order |
| CommandInit.ProjectPrompts | packages/command-init/lib/index.js:112-167 | the name is asked exactly when the argument was not a valid name; version and template choice follow |
| CommandInit.SetProp | packages/command-init/lib/index.js:91 | an existing key keeps its position and a new key goes last; no other key is added or moved |
| CommandInit.SetPropReads | packages/command-init/lib/index.js:91 | after the assignment the key reads the new value and every other key reads as before |
| CommandInit.SetPropKeepsKeysDistinct | packages/command-init/lib/index.js:91 | an assignment never repeats a key |
| CommandInit.Assign | packages/command-init/lib/index.js:170-174 | the target's keys keep their order at the front; distinct keys stay distinct |
| CommandInit.AssignReads | packages/command-init/lib/index.js:170-174 | after a spread a key reads the source's value when the source has it, and the target's otherwise |
| CommandInit.MergeProjectInfo | packages/command-init/lib/index.js:170-174 | `type` stays the first key and keys stay distinct |
| CommandInit.MergeProjectInfoReads | packages/command-init/lib/index.js:170-174 | answers override the name from the argument, which overrides only the type; a key in none of them is undefined |
| CommandInit.DropLeadingDash | packages/command-init/lib/index.js:176 | removes one leading '-' and nothing else |
| CommandInit.WithClassName | packages/command-init/lib/index.js:175-177 | a description with a non-empty name gets the class name assigned, and any other description is returned unchanged; keys stay distinct |
| CommandInit.WithClassNameReads | packages/command-init/lib/index.js:175-177 | the class name reads as the kebab-case name without its leading '-', and every other key reads as before |

## Left out

- HTTP: a registry request is a `fetch` function from URL to a response or
  `Unreachable`. Axios details are not modelled: headers, redirects, and
  bodies that are not package documents. An axios rejection is reduced to
  `RegistryUnavailable` (no response) or `StatusRejected(status)`; its
  message and attached response are not modelled.
- Version strings are `major.minor.patch` triples. Pre-release and build
  tags, `semver.valid` normalisation and parsing are not modelled. The
  registry returns already-parsed versions.
- UtilNpm.Greatest: the sort with the comparator `gt(b, a) ? 1 : -1` is
  modelled by its head, a greatest element. The order of the rest of the
  sorted list is not modelled, and neither is which of several equal
  versions comes first.
- UrlJoin: `url-join` normalisation of repeated slashes is not modelled. The
  model joins with one '/'.
- PackageCache.Join: `path.resolve` is modelled as `dir + "/" + name`.
  Normalisation of `.`/`..`, absolute names and trailing separators is not
  modelled.
- PackageCache.EntryFile: the `pkg-dir` upward search and the reading of
  `package.json` are the `Host` maps `pkgDirs` and `mains`. Non-string
  `main` values are not modelled.
- PackageCache.Host.NpmInstall: npminstall's own layout is abstracted to
  "success creates the cache entry `storeDir/_<prefix>@<version>@<name>`".
- PackageCache.Host.Mkdirp: the parent directories mkdirp also creates are
  not tracked in `paths`; only cache entries and the store directory are
  ever looked up.
- DynamicExec.Dispatch: an unset CLI_HOME_PATH is not modelled. The CLI
  entry always sets it, and the source would throw a TypeError from
  `path.resolve(undefined, …)`; an empty `cliHomePath` is joined as text.
- PackageCache.Package.Prepare: `fse.mkdirp` is not awaited in the source.
  The model creates the directory at once, so it does not capture a later
  step observing the directory as missing.
- PackageCache.CheckOptions: a path or version option that is not a string
  is treated like an unset one.
- PackageCache.Package.Update: an explicitly empty `storeDir` string is
  treated as unset, so the model throws the TypeError where `path.resolve`
  would resolve the empty string against the working directory.
- The registry answer is fixed for a whole run. The model does not capture
  a registry that changes between two lookups in one `update`.
- DynamicExec.Dispatch: `JSON.stringify` is the parameter `stringify`.
  Object key order for integer-like keys and duplicate keys are not
  modelled.
- DynamicExec.Dispatch: a child killed by a signal, which exits with a null
  code, is not modelled.
- DynamicExec.Dispatch: the `catch` around spawning logs an error only for
  exceptions that the model does not raise.
- Logging through `npmlog` and `console.log` is not modelled. The only log
  kept is each error message logged on failure (`Command.logged`).
- Prompts from `inquirer` are parameters (`Answers`). The questions asked
  are returned as `Prompt` values.
- The working directory is one `Directory` holding its entry names. Files'
  contents and nesting are not modelled.
- Unhandled promise rejections are recorded as `Stalled` or `NeverSettles`.
  What the Node runtime then does with them (a warning or a process exit) is
  not modelled.
- CommandInit.ProjectPrompts: prompt messages, the `validate` and `filter`
  callbacks, and the project/component title are not modelled.
- CommandInit.WithClassName: the `kebab-case` conversion is a function
  parameter. A non-string name is treated as no name.
- The CLI entry package (`packages/cli`, argument parsing with commander,
  the environment set-up) is not part of this model.
