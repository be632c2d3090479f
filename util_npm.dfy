/** Registry queries: the registry address, the published versions of a
    package, and the choice of the newest one (optionally above a baseline).
    The HTTP request itself is the `fetch` parameter. */
module UtilNpm {
  import opened Wrappers
  import opened Js
  import opened Semver

  const NpmjsRegistry: string := "https://registry.npmjs.org"
  const TaobaoRegistry: string := "https://registry.npm.taobao.org"

  /** getDefaultRegistry: the npmjs address when asked for the original
      registry, the taobao mirror otherwise (also when the flag is omitted,
      which callers express as `false`). */
  function DefaultRegistry(isOriginal: bool): (r: string)
    ensures isOriginal <==> r == NpmjsRegistry
    ensures !isOriginal <==> r == TaobaoRegistry
  {
    if isOriginal then NpmjsRegistry else TaobaoRegistry
  }

  /** The document the registry serves for a package; only the keys of its
      `versions` object matter here, in `Object.keys` order. */
  datatype PackageInfo = PackageInfo(versions: seq<Version>)

  /** What the HTTP layer reports for one GET: a request that got no
      response, or a status with a body (None for a falsy body). */
  datatype Response = Unreachable | Response(status: int, body: Option<PackageInfo>)

  /** The value getNpmInfo resolves to: undefined (no request made), null
      (a 2xx status other than 200, or an empty body), or the package
      document. */
  datatype Info = NoRequest | NoData | Data(info: PackageInfo)

  /** `urlJoin(base, name)`. */
  function UrlJoin(base: string, name: string): string {
    base + "/" + name
  }

  /** The URL getNpmInfo requests: the given registry, or the default one
      when none is given. */
  function InfoUrl(npmName: string, registry: string): (url: string)
    ensures registry == "" ==> url == UrlJoin(TaobaoRegistry, npmName)
    ensures registry != "" ==> url == UrlJoin(registry, npmName)
  {
    UrlJoin(if registry == "" then DefaultRegistry(false) else registry, npmName)
  }

  /** axios's default `validateStatus`: only a 2xx status fulfils the
      request; any other status rejects it. */
  predicate Fulfils(status: int) {
    200 <= status < 300
  }

  /** getNpmInfo. An empty name makes no request; a request that gets no
      response, or a status axios rejects, propagates as a rejection; a
      fulfilled request yields the document only for status 200. */
  function NpmInfo(npmName: string, registry: string, fetch: string -> Response): (r: Result<Info, Error>)
    ensures npmName == "" ==> r == Success(NoRequest)
    ensures r.Failure? <==>
      npmName != "" && (fetch(InfoUrl(npmName, registry)).Unreachable? || !Fulfils(fetch(InfoUrl(npmName, registry)).status))
    ensures npmName != "" && fetch(InfoUrl(npmName, registry)).Unreachable? ==> r == Failure(RegistryUnavailable)
    ensures npmName != "" && fetch(InfoUrl(npmName, registry)).Response? && !Fulfils(fetch(InfoUrl(npmName, registry)).status)
      ==> r == Failure(StatusRejected(fetch(InfoUrl(npmName, registry)).status))
    ensures r.Success? && r.value.Data? ==>
      npmName != "" && fetch(InfoUrl(npmName, registry)) == Response(200, Some(r.value.info))
    ensures npmName != "" && fetch(InfoUrl(npmName, registry)).Response? && Fulfils(fetch(InfoUrl(npmName, registry)).status)
        && fetch(InfoUrl(npmName, registry)).status != 200
      ==> r == Success(NoData)
    ensures npmName != "" && fetch(InfoUrl(npmName, registry)).Response? && fetch(InfoUrl(npmName, registry)).status == 200
      ==> r == Success(if fetch(InfoUrl(npmName, registry)).body.Some?
                       then Data(fetch(InfoUrl(npmName, registry)).body.value) else NoData)
  {
    if npmName == "" then Success(NoRequest)
    else
      match fetch(InfoUrl(npmName, registry))
      case Unreachable => Failure(RegistryUnavailable)
      case Response(status, body) =>
        if !Fulfils(status) then Failure(StatusRejected(status))
        else if status == 200 then
          (match body
           case Some(info) => Success(Data(info))
           case None => Success(NoData))
        else Success(NoData)
  }

  /** The versions an info value lists: none for undefined or null. */
  function VersionsOf(info: Info): (r: seq<Version>)
    ensures !info.Data? ==> r == []
    ensures info.Data? ==> r == info.info.versions
  {
    if info.Data? then info.info.versions else []
  }

  /** getNpmVersions. */
  function NpmVersions(npmName: string, registry: string, fetch: string -> Response): (r: Result<seq<Version>, Error>)
    ensures npmName == "" ==> r == Success([])
    ensures r.Failure? <==> NpmInfo(npmName, registry, fetch).Failure?
    ensures r.Success? ==> r.value == VersionsOf(NpmInfo(npmName, registry, fetch).value)
  {
    match NpmInfo(npmName, registry, fetch)
    case Failure(e) => Failure(e)
    case Success(info) => Success(VersionsOf(info))
  }

  /** The element of highest precedence of a non-empty list: what sorting
      by descending precedence and taking the head yields. */
  function Greatest(vs: seq<Version>): (r: Version)
    requires vs != []
    ensures r in vs
    ensures forall v :: v in vs ==> Gte(r, v)
  {
    if |vs| == 1 then vs[0]
    else
      var g := Greatest(vs[1..]);
      assert forall v :: v in vs ==> v == vs[0] || v in vs[1..];
      if Gt(vs[0], g) then vs[0] else g
  }

  /** The newest of a list of versions, or null for an empty list. */
  function Newest(vs: seq<Version>): (r: Option<Version>)
    ensures r.None? <==> vs == []
    ensures r.Some? ==> r.value in vs && forall v :: v in vs ==> Gte(r.value, v)
  {
    if vs == [] then None else Some(Greatest(vs))
  }

  /** The newest version is the only one that no listed version exceeds, so
      whatever order the sort leaves equal-precedence duplicates in, the head
      is that version. */
  lemma NewestIsUnique(vs: seq<Version>, u: Version)
    requires u in vs && forall v :: v in vs ==> Gte(u, v)
    ensures Newest(vs) == Some(u)
  {
    var n := Newest(vs).value;
    GtIsStrictTotalOrder(n, u, n);
  }

  /** getNpmLatestVersion. */
  function NpmLatestVersion(npmName: string, registry: string, fetch: string -> Response): (r: Result<Option<Version>, Error>)
    ensures r.Failure? <==> NpmVersions(npmName, registry, fetch).Failure?
    ensures r.Success? ==> (r.value.None? <==> NpmVersions(npmName, registry, fetch).value == [])
    ensures r.Success? && r.value.Some? ==>
      var vs := NpmVersions(npmName, registry, fetch).value;
      r.value.value in vs && forall v :: v in vs ==> Gte(r.value.value, v)
  {
    match NpmVersions(npmName, registry, fetch)
    case Failure(e) => Failure(e)
    case Success(vs) => Success(Newest(vs))
  }

  /** The versions satisfying the range `>base`, in their original order. */
  function Above(vs: seq<Version>, base: Version): (r: seq<Version>)
    ensures forall v :: v in r <==> v in vs && Gt(v, base)
    ensures |r| <= |vs|
  {
    if vs == [] then []
    else
      var rest := Above(vs[1..], base);
      assert forall v :: v in vs <==> v == vs[0] || v in vs[1..];
      if Gt(vs[0], base) then [vs[0]] + rest else rest
  }

  /** The newest version strictly above base, or null when there is none. */
  function NewestAbove(base: Version, vs: seq<Version>): (r: Option<Version>)
    ensures r.None? <==> forall v :: v in vs ==> !Gt(v, base)
    ensures r.Some? ==> r.value in vs && Gt(r.value, base)
    ensures r.Some? ==> forall v :: v in vs && Gt(v, base) ==> Gte(r.value, v)
  {
    var above := Above(vs, base);
    assert above == [] <==> forall v :: v in vs ==> !Gt(v, base) by {
      if above != [] { assert above[0] in above; }
    }
    Newest(above)
  }

  /** getNpmSemverVersion. */
  function NpmSemverVersion(base: Version, npmName: string, registry: string, fetch: string -> Response): (r: Result<Option<Version>, Error>)
    ensures r.Failure? <==> NpmVersions(npmName, registry, fetch).Failure?
    ensures r.Success? ==> r.value == NewestAbove(base, NpmVersions(npmName, registry, fetch).value)
  {
    match NpmVersions(npmName, registry, fetch)
    case Failure(e) => Failure(e)
    case Success(vs) => Success(NewestAbove(base, vs))
  }
}
