/** The versioned package cache. A `Package` names one npm package and keeps
    a mutable version; in cached mode (a store directory is set) every
    existence check, install and update is keyed by the cache entry
    `storeDir/_<prefix>@<version>@<name>`, in local mode the package is
    expected to sit at its target path already.

    The file system, the registry and npminstall are the `Host`: a set of
    existing paths, a log of install and mkdirp requests, a registry fetch
    function, and the results of the package-directory search and of reading
    package.json. */
module PackageCache {
  import opened Wrappers
  import opened Js
  import opened Semver
  import Utils
  import UtilNpm

  /** The TypeError `path.resolve` throws when the store directory is unset. */
  const UnsetPathError: Error := TypeError("The \"paths[0]\" argument must be of type string. Received undefined")

  /** The value of `packageVersion`: undefined, null, or a string (a version
      or the tag 'latest'). */
  datatype VersionField = Unset | NullVersion | Given(text: string)

  const LatestTag: VersionField := Given("latest")

  /** The field as a template literal renders it. */
  function VersionText(v: VersionField): string {
    match v
    case Unset => "undefined"
    case NullVersion => "null"
    case Given(t) => t
  }

  /** What 'latest' resolves to: the newest published version, or null when
      nothing is published. Never the tag itself. */
  function Resolved(latest: Option<Version>): (r: VersionField)
    ensures r != LatestTag
    ensures latest.None? <==> r == NullVersion
    ensures latest.Some? ==> r == Given(Render(latest.value))
  {
    match latest
    case None => NullVersion
    case Some(v) => RenderStartsWithDigit(v); Given(Render(v))
  }

  /** `path.resolve(dir, name)` for a relative name. */
  function Join(dir: string, name: string): (p: string)
    ensures |p| > |dir|
  {
    dir + "/" + name
  }

  /** The index of the first occurrence of c in s. */
  function FirstIndex(s: string, c: char): (i: nat)
    requires c in s
    ensures i < |s| && s[i] == c && c !in s[..i]
  {
    if s[0] == c then 0
    else
      assert c in s[1..] by { var k :| 0 <= k < |s| && s[k] == c; assert s[1..][k - 1] == c; }
      var j := FirstIndex(s[1..], c);
      assert s[..1 + j] == [s[0]] + s[1..][..j];
      1 + j
  }

  /** `s.replace(from, to)` with a one-character string pattern: only the
      first occurrence is replaced. */
  function ReplaceFirst(s: string, from: char, to: char): (r: string)
    ensures |r| == |s|
    ensures from !in s ==> r == s
    ensures from in s ==> r[FirstIndex(s, from)] == to
    ensures from in s ==> forall j :: 0 <= j < |s| && j != FirstIndex(s, from) ==> r[j] == s[j]
  {
    if s == [] then []
    else if s[0] == from then [to] + s[1..]
    else
      assert from in s ==> from in s[1..] by {
        if from in s { var k :| 0 <= k < |s| && s[k] == from; assert s[1..][k - 1] == from; }
      }
      [s[0]] + ReplaceFirst(s[1..], from, to)
  }

  /** cacheFilePathPrefix: the package name with its first '/' replaced by
      '_', so the scope separator of a scoped name such as `@scope/pkg` does
      not open a sub-directory. */
  function CachePrefix(name: string): (r: string)
    ensures |r| == |name|
    ensures '/' !in name ==> r == name
    ensures '/' in name ==> r[FirstIndex(name, '/')] == '_' && '/' !in r[..FirstIndex(name, '/') + 1]
    ensures forall i :: 0 <= i < |name| && name[i] != '/' ==> r[i] == name[i]
    ensures '/' in name ==> forall j :: 0 <= j < |name| && j != FirstIndex(name, '/') ==> r[j] == name[j]
  {
    ReplaceFirst(name, '/', '_')
  }

  /** The name of a cache entry: `_<prefix>@<version>@<name>`. */
  function CacheEntryName(prefix: string, version: VersionField, name: string): string {
    "_" + prefix + "@" + VersionText(version) + "@" + name
  }

  /** The cache entry of a version: directly inside the store directory,
      named by the prefix, then the version text, then the package name. */
  function CacheEntryPath(storeDir: string, prefix: string, version: VersionField, name: string): (p: string)
    ensures var head := storeDir + "/_" + prefix + "@";
      |p| == |head| + |VersionText(version)| + 1 + |name|
      && p[..|head|] == head
      && p[|head|..|head| + |VersionText(version)|] == VersionText(version)
      && p[|p| - |name| - 1..] == "@" + name
  {
    var p := Join(storeDir, CacheEntryName(prefix, version, name));
    assert p == (storeDir + "/_" + prefix + "@") + VersionText(version) + ("@" + name);
    p
  }

  /** For a fixed store, prefix and name, a cache entry path is determined by,
      and determines, the version text: equal versions share an entry and
      different versions never do. */
  lemma CacheEntryPathDeterminesVersion(storeDir: string, prefix: string, name: string, v1: VersionField, v2: VersionField)
    ensures CacheEntryPath(storeDir, prefix, v1, name) == CacheEntryPath(storeDir, prefix, v2, name)
        <==> VersionText(v1) == VersionText(v2)
  {
    var p1 := CacheEntryPath(storeDir, prefix, v1, name);
    var p2 := CacheEntryPath(storeDir, prefix, v2, name);
    var t1, t2 := VersionText(v1), VersionText(v2);
    var k := |storeDir + "/_" + prefix + "@"|;
    if p1 == p2 {
      assert |t1| == |t2|;
      assert t1 == p1[k..k + |t1|];
      assert t2 == p2[k..k + |t2|];
    }
  }

  /** Two different published versions are cached in different entries. */
  lemma ResolvedVersionsHaveDistinctEntries(storeDir: string, prefix: string, name: string, a: Version, b: Version)
    requires a != b
    ensures CacheEntryPath(storeDir, prefix, Resolved(Some(a)), name) != CacheEntryPath(storeDir, prefix, Resolved(Some(b)), name)
  {
    if Render(a) == Render(b) {
      RenderInjective(a, b);
    }
    CacheEntryPathDeterminesVersion(storeDir, prefix, name, Resolved(Some(a)), Resolved(Some(b)));
  }

  /** The options a Package reads. A missing or non-string path is the empty
      string, which the code treats as unset. */
  datatype PackageOptions = PackageOptions(packageName: string, packageVersion: VersionField, targetPath: string, storeDir: string)

  function VersionFieldOf(v: Value): VersionField {
    match v
    case Str(s) => Given(s)
    case Null => NullVersion
    case _ => Unset
  }

  function PathOf(v: Value): string {
    if v.Str? then v.s else ""
  }

  /** The constructor's checks: options must be truthy, then a plain object,
      and computing the cache prefix calls `replace` on the package name,
      which throws unless the name is a string. */
  function CheckOptions(options: Value): (r: Result<PackageOptions, Error>)
    ensures !Truthy(options) ==> r == Failure(OptionsMissing)
    ensures Truthy(options) && !options.Obj? ==> r == Failure(OptionsNotObject)
    ensures r.Success? <==> options.Obj? && Field(options, "packageName").Str?
    ensures options.Obj? && !r.Success? ==> r.error.TypeError?
    ensures r.Success? ==>
      && r.value.packageName == Field(options, "packageName").s
      && r.value.packageVersion == VersionFieldOf(Field(options, "packageVersion"))
      && r.value.targetPath == PathOf(Field(options, "targetPath"))
      && r.value.storeDir == PathOf(Field(options, "storeDir"))
  {
    if !Truthy(options) then Failure(OptionsMissing)
    else if !Utils.IsObject(options) then Failure(OptionsNotObject)
    else
      var name := Field(options, "packageName");
      if !name.Str? then Failure(TypeError("packageName.replace is not a function"))
      else Success(PackageOptions(name.s, VersionFieldOf(Field(options, "packageVersion")),
                                  PathOf(Field(options, "targetPath")), PathOf(Field(options, "storeDir"))))
  }

  /** One npminstall call: install `name@version` under `root` using the
      store directory and registry given. */
  datatype InstallRequest = InstallRequest(root: string, storeDir: string, registry: string, name: string, version: VersionField)

  /** The cache entry a successful npminstall materialises. */
  function InstalledPath(req: InstallRequest): string {
    CacheEntryPath(req.storeDir, CachePrefix(req.name), req.version, req.name)
  }

  /** The environment of the cache: the file system, npminstall and the
      registry. */
  class Host {
    /** Paths that exist. */
    var paths: set<string>
    /** Directories mkdirp was asked to create, in order. */
    var mkdirpCalls: seq<string>
    /** npminstall calls, in order. */
    var installs: seq<InstallRequest>
    /** The registry's answer to a GET of a URL. */
    const fetch: string -> UtilNpm.Response
    /** The install requests npminstall rejects. */
    const rejected: set<InstallRequest>
    /** pkg-dir: the nearest enclosing directory holding a package.json, for
        each start path that has one. */
    const pkgDirs: map<string, string>
    /** The `main` field of each package.json that has one. */
    const mains: map<string, string>
    /** path.sep */
    const sep: char

    constructor(paths: set<string>, fetch: string -> UtilNpm.Response, rejected: set<InstallRequest>,
                pkgDirs: map<string, string>, mains: map<string, string>, sep: char)
      ensures this.paths == paths && mkdirpCalls == [] && installs == []
      ensures this.fetch == fetch && this.rejected == rejected
      ensures this.pkgDirs == pkgDirs && this.mains == mains && this.sep == sep
    {
      this.paths := paths;
      this.mkdirpCalls := [];
      this.installs := [];
      this.fetch := fetch;
      this.rejected := rejected;
      this.pkgDirs := pkgDirs;
      this.mains := mains;
      this.sep := sep;
    }

    /** fse.mkdirp: creates the directory. Only the directory itself is
        recorded; its parents are not tracked. */
    method Mkdirp(dir: string)
      modifies this`paths, this`mkdirpCalls
      ensures mkdirpCalls == old(mkdirpCalls) + [dir]
      ensures paths == old(paths) + {dir}
    {
      mkdirpCalls := mkdirpCalls + [dir];
      paths := paths + {dir};
    }

    /** npminstall: on success the package's cache entry exists afterwards. */
    method NpmInstall(req: InstallRequest) returns (ok: bool)
      modifies this`paths, this`installs
      ensures installs == old(installs) + [req]
      ensures ok <==> req !in rejected
      ensures paths == if ok then old(paths) + {InstalledPath(req)} else old(paths)
    {
      installs := installs + [req];
      ok := req !in rejected;
      if ok {
        paths := paths + {InstalledPath(req)};
      }
    }
  }

  /** _getRootFile: the formatted `dir/main` of the package.json enclosing
      `start`, or null when there is no such file or it declares no main. */
  function EntryFile(host: Host, start: string): (r: Option<string>)
    ensures r.Some? <==>
      start in host.pkgDirs && host.pkgDirs[start] in host.mains && host.mains[host.pkgDirs[start]] != ""
    ensures r.Some? && host.sep == '/' ==>
      r.value == Join(host.pkgDirs[start], host.mains[host.pkgDirs[start]])
    ensures r.Some? && host.sep != '/' ==>
      && |r.value| == |Join(host.pkgDirs[start], host.mains[host.pkgDirs[start]])|
      && '\\' !in r.value
    ensures r.Some? ==>
      r.value == Utils.SystemPathFormat(Str(Join(host.pkgDirs[start], host.mains[host.pkgDirs[start]])), host.sep).s
  {
    if start in host.pkgDirs then
      var dir := host.pkgDirs[start];
      if dir in host.mains && host.mains[dir] != "" then
        Some(Utils.SystemPathFormat(Str(Join(dir, host.mains[dir])), host.sep).s)
      else None
    else None
  }

  class Package {
    const host: Host
    const packageName: string
    var packageVersion: VersionField
    const targetPath: string
    const storeDir: string
    const cacheFilePathPrefix: string

    predicate Valid() {
      cacheFilePathPrefix == CachePrefix(packageName)
    }

    /** The constructor after CheckOptions accepted its argument. */
    constructor(host: Host, options: PackageOptions)
      ensures Valid()
      ensures this.host == host
      ensures packageName == options.packageName && packageVersion == options.packageVersion
      ensures targetPath == options.targetPath && storeDir == options.storeDir
    {
      this.host := host;
      this.packageName := options.packageName;
      this.packageVersion := options.packageVersion;
      this.targetPath := options.targetPath;
      this.storeDir := options.storeDir;
      this.cacheFilePathPrefix := CachePrefix(options.packageName);
    }

    /** Cached mode: a store directory is set. */
    predicate Cached() {
      storeDir != ""
    }

    /** getSpecificCacheFilePath: the cache entry of the given version. */
    function SpecificCacheFilePath(version: VersionField): (p: string)
      ensures |p| > |storeDir| && p[..|storeDir|] == storeDir
    {
      CacheEntryPath(storeDir, cacheFilePathPrefix, version, packageName)
    }

    /** Two versions share a specific cache path exactly when their texts
        agree. */
    lemma SpecificPathsDistinguishVersions(v1: VersionField, v2: VersionField)
      ensures SpecificCacheFilePath(v1) == SpecificCacheFilePath(v2) <==> VersionText(v1) == VersionText(v2)
    {
      CacheEntryPathDeterminesVersion(storeDir, cacheFilePathPrefix, packageName, v1, v2);
    }

    /** The cacheFilePath getter, which spells out the same template for the
        current version: it is the specific path of that version. */
    function CacheFilePath(): (p: string)
      reads this
      ensures p == SpecificCacheFilePath(packageVersion)
    {
      CacheEntryPath(storeDir, cacheFilePathPrefix, packageVersion, packageName)
    }

    /** getNpmLatestVersion(packageName), on the default registry. */
    function LatestLookup(): Result<Option<Version>, Error> {
      UtilNpm.NpmLatestVersion(packageName, "", host.fetch)
    }

    /** The version prepare leaves behind when it starts from `version`:
        'latest' resolved through the registry, anything else kept; a failed
        registry lookup makes prepare throw. */
    function PreparedVersion(version: VersionField): (r: Result<VersionField, Error>)
      ensures r.Success? ==> r.value != LatestTag
      ensures version != LatestTag ==> r == Success(version)
      ensures version == LatestTag ==> (r.Failure? <==> LatestLookup().Failure?)
      ensures r.Failure? ==> version == LatestTag && LatestLookup().Failure? && r.error == LatestLookup().error
      ensures version == LatestTag && LatestLookup().Success? ==> r == Success(Resolved(LatestLookup().value))
    {
      if version == LatestTag then
        match LatestLookup()
        case Failure(e) => Failure(e)
        case Success(latest) => Success(Resolved(latest))
      else Success(version)
    }

    /** 'latest' becomes null exactly when the registry lists no version, and
        otherwise the text of a listed version that no listed version
        exceeds. */
    lemma PreparedLatestIsNewest()
      requires PreparedVersion(LatestTag).Success?
      ensures UtilNpm.NpmVersions(packageName, "", host.fetch).Success?
      ensures var vs := UtilNpm.NpmVersions(packageName, "", host.fetch).value;
        && (PreparedVersion(LatestTag).value == NullVersion <==> vs == [])
        && (vs != [] ==> exists v :: v in vs && (forall w :: w in vs ==> Gte(v, w))
                                    && PreparedVersion(LatestTag).value == Given(Render(v)))
    {
      var latest := LatestLookup().value;
      if latest.Some? {
        assert PreparedVersion(LatestTag).value == Given(Render(latest.value));
      }
    }

    /** What exists() answers when it starts from `version` with the paths
        `paths` present: in cached mode, whether the prepared version's cache
        entry exists (or prepare's error); in local mode, whether the target
        path exists. */
    function ExistsAnswer(version: VersionField, paths: set<string>): Result<bool, Error> {
      if !Cached() then Success(targetPath in paths)
      else match PreparedVersion(version)
        case Failure(e) => Failure(e)
        case Success(v) => Success(SpecificCacheFilePath(v) in paths)
    }

    /** prepare creates the store directory when it is set and absent. */
    predicate NeedsStoreDir()
      reads host
    {
      Cached() && storeDir !in host.paths
    }

    function StoreDirAdded(): set<string>
      reads host
    {
      if NeedsStoreDir() then {storeDir} else {}
    }

    /** The request install and update hand to npminstall. */
    function RequestFor(version: VersionField): InstallRequest {
      InstallRequest(targetPath, storeDir, UtilNpm.DefaultRegistry(false), packageName, version)
    }

    lemma InstalledPathIsCacheEntry(version: VersionField)
      requires Valid()
      ensures InstalledPath(RequestFor(version)) == SpecificCacheFilePath(version)
    {
    }

    method Prepare() returns (err: Option<Error>)
      modifies this`packageVersion, host`paths, host`mkdirpCalls
      ensures host.mkdirpCalls == old(host.mkdirpCalls) + (if old(NeedsStoreDir()) then [storeDir] else [])
      ensures host.paths == old(host.paths + StoreDirAdded())
      ensures old(PreparedVersion(packageVersion)).Failure? ==>
        err == Some(old(PreparedVersion(packageVersion)).error) && packageVersion == old(packageVersion)
      ensures old(PreparedVersion(packageVersion)).Success? ==>
        err.None? && packageVersion == old(PreparedVersion(packageVersion)).value
    {
      if storeDir != "" && storeDir !in host.paths {
        host.Mkdirp(storeDir);
      }
      err := None;
      if packageVersion == LatestTag {
        match LatestLookup()
        case Failure(e) =>
          err := Some(e);
        case Success(latest) =>
          packageVersion := Resolved(latest);
      }
    }

    /** In cached mode: prepare, then look for the current version's cache
        entry. In local mode: look for the target path only, without prepare
        (so 'latest' stays unresolved). */
    method Exists() returns (r: Result<bool, Error>)
      modifies this`packageVersion, host`paths, host`mkdirpCalls
      ensures !Cached() ==>
        && r == Success(targetPath in host.paths)
        && packageVersion == old(packageVersion)
        && host.paths == old(host.paths) && host.mkdirpCalls == old(host.mkdirpCalls)
      ensures Cached() ==>
        && host.paths == old(host.paths + StoreDirAdded())
        && host.mkdirpCalls == old(host.mkdirpCalls) + (if old(NeedsStoreDir()) then [storeDir] else [])
      ensures Cached() && old(PreparedVersion(packageVersion)).Failure? ==>
        r == Failure(old(PreparedVersion(packageVersion)).error) && packageVersion == old(packageVersion)
      ensures Cached() && old(PreparedVersion(packageVersion)).Success? ==>
        packageVersion == old(PreparedVersion(packageVersion)).value && r == Success(CacheFilePath() in host.paths)
      ensures r == old(ExistsAnswer(packageVersion, host.paths))
    {
      if storeDir != "" {
        var err := Prepare();
        if err.Some? {
          return Failure(err.value);
        }
        r := Success(CacheFilePath() in host.paths);
      } else {
        r := Success(targetPath in host.paths);
      }
    }

    /** prepare, then npminstall the current version. */
    method Install() returns (err: Option<Error>)
      requires Valid()
      modifies this`packageVersion, host`paths, host`mkdirpCalls, host`installs
      ensures host.mkdirpCalls == old(host.mkdirpCalls) + (if old(NeedsStoreDir()) then [storeDir] else [])
      ensures old(PreparedVersion(packageVersion)).Failure? ==>
        && err == Some(old(PreparedVersion(packageVersion)).error)
        && packageVersion == old(packageVersion)
        && host.installs == old(host.installs)
        && host.paths == old(host.paths + StoreDirAdded())
      ensures old(PreparedVersion(packageVersion)).Success? ==>
        && packageVersion == old(PreparedVersion(packageVersion)).value
        && host.installs == old(host.installs) + [RequestFor(packageVersion)]
        && (err.None? <==> RequestFor(packageVersion) !in host.rejected)
        && (err.Some? ==> err.value == InstallFailed)
        && host.paths == old(host.paths + StoreDirAdded()) + (if err.None? then {CacheFilePath()} else {})
    {
      err := Prepare();
      if err.Some? {
        return;
      }
      var ok := host.NpmInstall(RequestFor(packageVersion));
      InstalledPathIsCacheEntry(packageVersion);
      err := if ok then None else Some(InstallFailed);
    }

    /** The resolved latest version, as update computes it. */
    function LatestField(): VersionField
      requires LatestLookup().Success?
    {
      Resolved(LatestLookup().value)
    }

    /** The cache entry of the latest version. */
    function LatestPath(): string
      requires LatestLookup().Success?
    {
      SpecificCacheFilePath(LatestField())
    }

    /** prepare; then, when the latest version's cache entry is absent,
        install that version and only afterwards record it as the current
        version. When the entry exists nothing is installed and the version
        is left as prepare left it. */
    method Update() returns (err: Option<Error>)
      requires Valid()
      modifies this`packageVersion, host`paths, host`mkdirpCalls, host`installs
      ensures host.mkdirpCalls == old(host.mkdirpCalls) + (if old(NeedsStoreDir()) then [storeDir] else [])
      ensures old(PreparedVersion(packageVersion)).Failure? ==>
        && err == Some(old(PreparedVersion(packageVersion)).error)
        && packageVersion == old(packageVersion)
        && host.installs == old(host.installs)
        && host.paths == old(host.paths + StoreDirAdded())
      ensures old(PreparedVersion(packageVersion)).Success? && LatestLookup().Failure? ==>
        && err == Some(LatestLookup().error)
        && packageVersion == old(PreparedVersion(packageVersion)).value
        && host.installs == old(host.installs)
        && host.paths == old(host.paths + StoreDirAdded())
      ensures old(PreparedVersion(packageVersion)).Success? && LatestLookup().Success? && !Cached() ==>
        && err == Some(UnsetPathError)
        && packageVersion == old(PreparedVersion(packageVersion)).value
        && host.installs == old(host.installs)
        && host.paths == old(host.paths)
      ensures old(PreparedVersion(packageVersion)).Success? && LatestLookup().Success? && Cached() && LatestPath() in old(host.paths) ==>
        && err.None?
        && packageVersion == old(PreparedVersion(packageVersion)).value
        && host.installs == old(host.installs)
        && host.paths == old(host.paths + StoreDirAdded())
      ensures old(PreparedVersion(packageVersion)).Success? && LatestLookup().Success? && Cached() && LatestPath() !in old(host.paths) ==>
        && host.installs == old(host.installs) + [RequestFor(LatestField())]
        && (err.None? <==> RequestFor(LatestField()) !in host.rejected)
        && (err.None? ==>
              packageVersion == LatestField() && host.paths == old(host.paths + StoreDirAdded()) + {LatestPath()})
        && (err.Some? ==>
              && err.value == InstallFailed
              && packageVersion == old(PreparedVersion(packageVersion)).value
              && host.paths == old(host.paths + StoreDirAdded()))
      ensures err.None? ==> Cached() && LatestLookup().Success? && LatestPath() in host.paths && packageVersion != LatestTag
    {
      err := Prepare();
      if err.Some? {
        return;
      }
      match LatestLookup()
      case Failure(e) =>
        err := Some(e);
      case Success(latest) =>
        if storeDir == "" {
          err := Some(UnsetPathError);
          return;
        }
        var latestVersion := Resolved(latest);
        var latestFilePath := SpecificCacheFilePath(latestVersion);
        assert latestFilePath != storeDir;
        if latestFilePath !in host.paths {
          var ok := host.NpmInstall(RequestFor(latestVersion));
          InstalledPathIsCacheEntry(latestVersion);
          if !ok {
            err := Some(InstallFailed);
            return;
          }
          packageVersion := latestVersion;
        }
    }

    /** getRootFilePath: the entry file, searched from the cache entry in
        cached mode and from the target path in local mode. */
    function RootFilePath(): (r: Option<string>)
      reads this
      ensures Cached() ==> r == EntryFile(host, CacheFilePath())
      ensures !Cached() ==> r == EntryFile(host, targetPath)
    {
      if storeDir != "" then EntryFile(host, CacheFilePath()) else EntryFile(host, targetPath)
    }
  }

  /** Two updates in a row: once the first has succeeded, the second installs
      nothing and leaves the version where the first put it. */
  method UpdateTwice(p: Package) returns (first: Option<Error>, second: Option<Error>,
                                         installsBetween: seq<InstallRequest>, versionBetween: VersionField)
    requires p.Valid()
    modifies p`packageVersion, p.host`paths, p.host`mkdirpCalls, p.host`installs
    ensures first.None? ==> second.None? && p.host.installs == installsBetween && p.packageVersion == versionBetween
  {
    first := p.Update();
    installsBetween, versionBetween := p.host.installs, p.packageVersion;
    second := p.Update();
  }

  /** In cached mode, once install has succeeded the package exists. */
  method InstallThenExists(p: Package) returns (installed: Option<Error>, found: Result<bool, Error>)
    requires p.Valid() && p.Cached()
    modifies p`packageVersion, p.host`paths, p.host`mkdirpCalls, p.host`installs
    ensures installed.None? ==> found == Success(true)
  {
    installed := p.Install();
    found := p.Exists();
  }
}
