/** The dispatcher: maps a command to its package, makes sure the package is
    installed and current (cached mode) or reads it from a local path (local
    mode), then starts `node -e` on the package's entry file with the
    command's arguments, and takes the child's exit code as its own. */
module DynamicExec {
  import opened Wrappers
  import opened Js
  import Utils
  import PackageCache

  /** COMMAND_CONFIG */
  const CommandConfig: map<string, string> := map["init" := "@estayjs/command-init"]

  /** `COMMAND_CONFIG[cmdName]`: the package implementing a command. */
  function PackageFor(cmdName: string): (r: Option<string>)
    ensures cmdName == "init" ==> r == Some("@estayjs/command-init")
    ensures cmdName != "init" ==> r.None?
  {
    if cmdName in CommandConfig then Some(CommandConfig[cmdName]) else None
  }

  /** `command.name()` on the commander Command passed last: its `_name`.
      Anything else has no usable `name` method. */
  function CommandName(command: Value): (r: Option<string>)
    ensures r.Some? ==> command.Obj? && Field(command, "_name") == Str(r.value)
    ensures command.Obj? && Field(command, "_name").Str? ==> r.Some?
  {
    if command.Obj? && Get(command.props, "_name").Str? then Some(Get(command.props, "_name").s) else None
  }

  /** A key that survives the stripping: not private, not the parent link. */
  predicate KeepKey(key: string) {
    !StartsWith(key, '_') && key != "parent"
  }

  /** The properties of an object that are copied into the stripped object,
      in their original order. */
  function PublicProps(props: Props): (r: Props)
    ensures forall p :: p in r <==> p in props && KeepKey(p.0)
    ensures |r| <= |props|
  {
    if props == [] then []
    else
      var rest := PublicProps(props[1..]);
      assert forall p :: p in props <==> p == props[0] || p in props[1..];
      (if KeepKey(props[0].0) then [props[0]] else []) + rest
  }

  lemma {:induction false} PublicPropsAppend(props: Props, p: (string, Value))
    ensures PublicProps(props + [p]) == PublicProps(props) + (if KeepKey(p.0) then [p] else [])
  {
    if props == [] {
      assert [p][1..] == [];
    } else {
      assert (props + [p])[1..] == props[1..] + [p];
      PublicPropsAppend(props[1..], p);
    }
  }

  /** The stripping loop: the last argument is replaced by a fresh object
      holding exactly its own properties whose keys are kept; the earlier
      arguments are untouched. */
  method StripCommand(args: seq<Value>) returns (out: seq<Value>)
    requires |args| > 0 && args[|args| - 1].Obj?
    ensures |out| == |args|
    ensures out[..|args| - 1] == args[..|args| - 1]
    ensures out[|args| - 1] == Obj(PublicProps(args[|args| - 1].props))
  {
    var cmd := args[|args| - 1];
    var keys := cmd.props;
    var o: Props := [];
    var i := 0;
    while i < |keys|
      invariant 0 <= i <= |keys|
      invariant o == PublicProps(keys[..i])
    {
      if KeepKey(keys[i].0) {
        o := o + [keys[i]];
      }
      PublicPropsAppend(keys[..i], keys[i]);
      assert keys[..i + 1] == keys[..i] + [keys[i]];
      i := i + 1;
    }
    assert keys[..|keys|] == keys;
    out := args[|args| - 1 := Obj(o)];
  }

  /** The code string run by `node -e`: it requires the entry file and
      calls the module with the serialised arguments. */
  function ChildCode(rootFile: string, payload: string): (c: string)
    ensures |c| == |"require('"| + |rootFile| + |"').call(null, "| + |payload| + 1
    ensures c[..|"require('"|] == "require('"
    ensures c[|"require('"|..|"require('"| + |rootFile|] == rootFile
    ensures c[|"require('"| + |rootFile|..|c| - |payload| - 1] == "').call(null, "
    ensures c[|c| - |payload| - 1..|c| - 1] == payload && c[|c| - 1] == ')'
  {
    "require('" + rootFile + "').call(null, " + payload + ")"
  }

  /** The status the parent exits with, from its own handlers on the spawned
      child's events: the child's exit code on 'exit', or 1 on 'error'. The
      dispatcher does not use spawnAsync; the last clause only records that
      both settle a child's end the same way. */
  function ExitCode(ev: Utils.ChildEvent): (c: int)
    ensures ev.SpawnError? ==> c == 1
    ensures ev.Exited? ==> c == ev.code
    ensures c == (if Utils.SpawnAsync(ev).Success? then Utils.SpawnAsync(ev).value else 1)
  {
    match ev
    case Exited(code) => code
    case SpawnError => 1
  }

  /** The process-scoped inputs: CLI_HOME_PATH (always set by the CLI entry),
      CLI_LOCAL_PATH (empty when unset), the working directory and the
      platform. */
  datatype Config = Config(cliHomePath: string, localPath: string, cwd: string, platform: string)

  /** Which cache operation the dispatcher chose. */
  datatype Action = NoAction | Updated | Installed

  datatype Outcome =
    | Failed(error: Error)
    | NothingToRun
    | Ran(rootFile: string, payload: seq<Value>, call: Utils.SpawnCall, exitCode: int)

  /** The install root: the `dependencies` directory inside the CLI home. */
  function TargetPathFor(cliHomePath: string): (p: string)
    ensures |p| > |cliHomePath| && p[..|cliHomePath|] == cliHomePath
    ensures p[|cliHomePath|..] == "/dependencies"
  {
    PackageCache.Join(cliHomePath, "dependencies")
  }

  /** The store: the `node_modules` directory inside the install root. */
  function StoreDirFor(cliHomePath: string): (p: string)
    ensures |p| > |TargetPathFor(cliHomePath)| && p[..|TargetPathFor(cliHomePath)|] == TargetPathFor(cliHomePath)
    ensures p[|TargetPathFor(cliHomePath)|..] == "/node_modules"
    ensures p != TargetPathFor(cliHomePath) && p != ""
  {
    PackageCache.Join(TargetPathFor(cliHomePath), "node_modules")
  }

  function NameValue(name: Option<string>): Value {
    if name.Some? then Str(name.value) else Undefined
  }

  /** The options object handed to `new Package(...)` in either mode. */
  function PackageOptionsValue(config: Config, packageName: Option<string>): Value {
    if config.localPath == "" then
      Obj([("targetPath", Str(TargetPathFor(config.cliHomePath))),
           ("storeDir", Str(StoreDirFor(config.cliHomePath))),
           ("packageName", NameValue(packageName)),
           ("packageVersion", Str("latest"))])
    else
      Obj([("targetPath", Str(config.localPath)),
           ("packageName", NameValue(packageName)),
           ("packageVersion", Str("latest"))])
  }

  function SpawnOptions(cwd: string): Value {
    Obj([("cwd", Str(cwd)), ("stdio", Str("inherit"))])
  }

  /** The options the dispatcher builds pass the Package checks exactly when
      the command has a package, giving the expected paths and 'latest'. */
  lemma DispatchOptionsChecked(config: Config, packageName: Option<string>)
    ensures var r := PackageCache.CheckOptions(PackageOptionsValue(config, packageName));
      && (r.Success? <==> packageName.Some?)
      && (r.Failure? ==> r.error.TypeError?)
      && (r.Success? ==> r.value == PackageCache.PackageOptions(
            packageName.value, PackageCache.LatestTag,
            if config.localPath == "" then TargetPathFor(config.cliHomePath) else config.localPath,
            if config.localPath == "" then StoreDirFor(config.cliHomePath) else ""))
  {
    var v := PackageOptionsValue(config, packageName);
    assert "targetPath"[0] != "packageName"[0] && "storeDir"[0] != "packageName"[0];
    assert "targetPath"[0] != "packageVersion"[0] && "storeDir"[0] != "packageVersion"[0];
    assert "packageName"[7] != "packageVersion"[7];
    assert "targetPath"[0] != "storeDir"[0];
    if config.localPath == "" {
      assert v.props[1..][0] == ("storeDir", Str(StoreDirFor(config.cliHomePath)));
      assert v.props[1..][1..][0] == ("packageName", NameValue(packageName));
      assert v.props[1..][1..][1..][0] == ("packageVersion", Str("latest"));
      assert Field(v, "storeDir") == Str(StoreDirFor(config.cliHomePath));
    } else {
      assert v.props[1..][0] == ("packageName", NameValue(packageName));
      assert v.props[1..][1..][0] == ("packageVersion", Str("latest"));
      assert !HasKey(v.props, "storeDir");
    }
    assert Field(v, "packageName") == NameValue(packageName);
    assert Field(v, "packageVersion") == Str("latest");
    assert Field(v, "targetPath") == Str(if config.localPath == "" then TargetPathFor(config.cliHomePath) else config.localPath);
  }

  /** The cached-mode step: update when exists answers yes, install when it
      answers no, neither when it throws. */
  method Refresh(pkg: PackageCache.Package) returns (err: Option<Error>, action: Action)
    requires pkg.Valid()
    modifies pkg`packageVersion, pkg.host`paths, pkg.host`mkdirpCalls, pkg.host`installs
    ensures |old(pkg.host.installs)| <= |pkg.host.installs| <= |old(pkg.host.installs)| + 1
    ensures pkg.host.installs[..|old(pkg.host.installs)|] == old(pkg.host.installs)
    ensures action == NoAction ==> err.Some? && pkg.host.installs == old(pkg.host.installs)
    // the cache only grows: a missing store directory is created, and a
    // successful install adds the entry of the version now current
    ensures pkg.host.mkdirpCalls == old(pkg.host.mkdirpCalls) + (if old(pkg.NeedsStoreDir()) then [pkg.storeDir] else [])
    ensures pkg.host.paths == old(pkg.host.paths + pkg.StoreDirAdded()) +
      (if err.None? && pkg.host.installs != old(pkg.host.installs) then {pkg.CacheFilePath()} else {})
    ensures err.None? && action != NoAction ==> pkg.CacheFilePath() in pkg.host.paths
    // the choice follows the answer of exists
    ensures old(pkg.ExistsAnswer(pkg.packageVersion, pkg.host.paths)).Failure? ==>
      && action == NoAction
      && err == Some(old(pkg.ExistsAnswer(pkg.packageVersion, pkg.host.paths)).error)
    ensures action == Updated <==> old(pkg.ExistsAnswer(pkg.packageVersion, pkg.host.paths)) == Success(true)
    ensures action == Installed <==> old(pkg.ExistsAnswer(pkg.packageVersion, pkg.host.paths)) == Success(false)
    // update in cached mode installs the latest version exactly when its entry is missing
    ensures action == Updated && pkg.Cached() ==>
      && pkg.host.installs == old(pkg.host.installs) +
           (if pkg.LatestLookup().Success? && pkg.LatestPath() !in old(pkg.host.paths + pkg.StoreDirAdded())
            then [pkg.RequestFor(pkg.LatestField())] else [])
      && (err.None? <==>
            (pkg.LatestLookup().Success? &&
             (pkg.LatestPath() in old(pkg.host.paths + pkg.StoreDirAdded()) || pkg.RequestFor(pkg.LatestField()) !in pkg.host.rejected)))
    ensures action == Updated && pkg.Cached() && err.None? ==>
      pkg.packageVersion ==
        (if pkg.LatestPath() in old(pkg.host.paths + pkg.StoreDirAdded())
         then old(pkg.PreparedVersion(pkg.packageVersion)).value else pkg.LatestField())
    // without a store directory update always throws
    ensures action == Updated && !pkg.Cached() ==> err.Some? && pkg.host.installs == old(pkg.host.installs)
    // install hands the prepared version to npminstall
    ensures action == Installed && old(pkg.PreparedVersion(pkg.packageVersion)).Failure? ==>
      err == Some(old(pkg.PreparedVersion(pkg.packageVersion)).error) && pkg.host.installs == old(pkg.host.installs)
    ensures action == Installed && old(pkg.PreparedVersion(pkg.packageVersion)).Success? ==>
      && pkg.packageVersion == old(pkg.PreparedVersion(pkg.packageVersion)).value
      && pkg.host.installs == old(pkg.host.installs) + [pkg.RequestFor(pkg.packageVersion)]
      && (err.None? <==> pkg.RequestFor(pkg.packageVersion) !in pkg.host.rejected)
      && (err.Some? ==> err.value == InstallFailed)
  {
    var found := pkg.Exists();
    if found.Failure? {
      return Some(found.error), NoAction;
    }
    if found.value {
      action := Updated;
      err := pkg.Update();
    } else {
      action := Installed;
      err := pkg.Install();
    }
  }

  /** dynamicExec. `args` are the action's arguments, the commander Command
      last; `stringify` is JSON.stringify; `child` is how the child ends. */
  method Dispatch(host: PackageCache.Host, config: Config, args: seq<Value>,
                  stringify: seq<Value> -> string, child: Utils.ChildEvent)
    returns (outcome: Outcome, action: Action, pkg: PackageCache.Package?)
    modifies host`paths, host`mkdirpCalls, host`installs
    // a command that cannot be named or has no package fails before any package work
    ensures |args| == 0 || CommandName(args[|args| - 1]).None? ==>
      outcome.Failed? && pkg == null
    ensures |args| > 0 && CommandName(args[|args| - 1]).Some? && PackageFor(CommandName(args[|args| - 1]).value).None? ==>
      outcome.Failed? && outcome.error.TypeError? && pkg == null
    ensures pkg == null ==>
      && outcome.Failed? && action == NoAction
      && host.paths == old(host.paths) && host.mkdirpCalls == old(host.mkdirpCalls) && host.installs == old(host.installs)
    // the package that was built
    ensures pkg != null ==>
      && fresh(pkg) && pkg.Valid() && pkg.host == host
      && |args| > 0 && CommandName(args[|args| - 1]).Some?
      && PackageFor(CommandName(args[|args| - 1]).value) == Some(pkg.packageName)
    ensures pkg != null && config.localPath == "" ==>
      pkg.targetPath == TargetPathFor(config.cliHomePath) && pkg.storeDir == StoreDirFor(config.cliHomePath) && pkg.Cached()
    ensures pkg != null && config.localPath != "" ==>
      pkg.targetPath == config.localPath && !pkg.Cached() && pkg.packageVersion == PackageCache.LatestTag
    // local mode never touches the cache; cached mode runs at most one install
    ensures config.localPath != "" ==>
      && action == NoAction
      && host.paths == old(host.paths) && host.mkdirpCalls == old(host.mkdirpCalls) && host.installs == old(host.installs)
    ensures action != NoAction ==> config.localPath == "" && pkg != null
    ensures |old(host.installs)| <= |host.installs| <= |old(host.installs)| + 1
    ensures host.installs[..|old(host.installs)|] == old(host.installs)
    ensures action == NoAction ==> host.installs == old(host.installs)
    // local mode cannot fail once the package is built
    ensures pkg != null && config.localPath != "" ==> !outcome.Failed?
    // cached mode: the package starts at 'latest', and exists decides between update and install
    ensures pkg != null && config.localPath == "" && pkg.ExistsAnswer(PackageCache.LatestTag, old(host.paths)).Failure? ==>
      && outcome == Failed(pkg.ExistsAnswer(PackageCache.LatestTag, old(host.paths)).error)
      && action == NoAction
    ensures pkg != null && config.localPath == "" && pkg.ExistsAnswer(PackageCache.LatestTag, old(host.paths)) == Success(true) ==>
      && action == Updated
      && host.installs == old(host.installs)
      && !outcome.Failed?
    ensures pkg != null && config.localPath == "" && pkg.ExistsAnswer(PackageCache.LatestTag, old(host.paths)) == Success(false) ==>
      && action == Installed
      && pkg.LatestLookup().Success?
      && host.installs == old(host.installs) + [pkg.RequestFor(pkg.LatestField())]
      && (outcome.Failed? <==> pkg.RequestFor(pkg.LatestField()) in host.rejected)
      && (outcome.Failed? ==> outcome.error == InstallFailed)
    ensures pkg != null && config.localPath == "" && !outcome.Failed? ==>
      pkg.LatestLookup().Success? && pkg.packageVersion == pkg.LatestField()
    // cached mode: the store directory is created when missing, a successful
    // install adds the latest entry, and nothing else changes on disk
    ensures pkg != null && config.localPath == "" ==>
      && host.mkdirpCalls == old(host.mkdirpCalls) + (if pkg.storeDir in old(host.paths) then [] else [pkg.storeDir])
      && host.paths == old(host.paths) + (if pkg.storeDir in old(host.paths) then {} else {pkg.storeDir}) +
           (if host.installs != old(host.installs) && !outcome.Failed? then {pkg.CacheFilePath()} else {})
    ensures pkg != null && config.localPath == "" && !outcome.Failed? ==> pkg.LatestPath() in host.paths
    // a child is started exactly when the entry file was found
    ensures pkg != null && !outcome.Failed? ==> (outcome.Ran? <==> pkg.RootFilePath().Some?)
    ensures outcome.NothingToRun? ==> pkg != null && pkg.RootFilePath().None?
    ensures outcome.Ran? ==>
      && pkg != null && pkg.RootFilePath() == Some(outcome.rootFile)
      && |outcome.payload| == |args|
      && outcome.payload[..|args| - 1] == args[..|args| - 1]
      && outcome.payload[|args| - 1] == Obj(PublicProps(args[|args| - 1].props))
      && outcome.call == Utils.Spawn("node", ["-e", ChildCode(outcome.rootFile, stringify(outcome.payload))],
                                     SpawnOptions(config.cwd), config.platform)
      && outcome.exitCode == ExitCode(child)
  {
    pkg := null;
    action := NoAction;
    if |args| == 0 {
      outcome := Failed(TypeError("Cannot read properties of undefined (reading 'name')"));
      return;
    }
    var name := CommandName(args[|args| - 1]);
    if name.None? {
      outcome := Failed(TypeError("command.name is not a function"));
      return;
    }
    var packageName := PackageFor(name.value);
    DispatchOptionsChecked(config, packageName);
    var checked := PackageCache.CheckOptions(PackageOptionsValue(config, packageName));
    if checked.Failure? {
      outcome := Failed(checked.error);
      return;
    }
    pkg := new PackageCache.Package(host, checked.value);
    if config.localPath == "" {
      ghost var answer := pkg.ExistsAnswer(PackageCache.LatestTag, host.paths);
      assert answer.Success? ==>
        && pkg.LatestLookup().Success?
        && pkg.PreparedVersion(PackageCache.LatestTag) == Success(pkg.LatestField())
        && answer.value == (pkg.LatestPath() in host.paths);
      var err;
      err, action := Refresh(pkg);
      if err.Some? {
        outcome := Failed(err.value);
        return;
      }
    }
    var rootFile := pkg.RootFilePath();
    if rootFile.None? {
      outcome := NothingToRun;
      return;
    }
    var payload := StripCommand(args);
    var code := ChildCode(rootFile.value, stringify(payload));
    var call := Utils.Spawn("node", ["-e", code], SpawnOptions(config.cwd), config.platform);
    outcome := Ran(rootFile.value, payload, call, ExitCode(child));
  }
}
