/** deps.dev lookups (lib/deps/repo.go): repository URL normalisation, the
    project cache, the lookup of a repository's project data, the retry
    back-off, and the lookup of a package version's source repository.

    HTTP requests are an oracle `get` from the request URL to the outcome;
    url.QueryEscape and url.PathEscape are oracles too. */
module DepsRepo {
  import opened Base
  import opened GoStrings
  import opened GoUrl

  datatype Scorecard = Scorecard(overallScore: Option<real>)

  /** A deps.dev project (its ProjectKey reduced to the id). */
  datatype Project = Project(
    id: string,
    openIssuesCount: Option<int>,
    starsCount: Option<int>,
    forksCount: Option<int>,
    license: Option<string>,
    description: Option<string>,
    homepage: Option<string>,
    scorecard: Option<Scorecard>)

  datatype RelatedProject = RelatedProject(id: string, relationType: string, relationProvenance: string)

  datatype PackageVersion = PackageVersion(relatedProjects: seq<RelatedProject>)

  /** The outcome of an HTTP GET: a transport error, or a status with the
      body's JSON decoding. */
  datatype HttpResult<T> = TransportError(err: string) | HttpResponse(status: int, body: Result<T>)

  // ----- the cache -----

  /** projectCache: deps.dev projects by normalised repository URL. */
  class ProjectCache {
    var data: map<string, Project>

    constructor()
      ensures data == map[]
    {
      data := map[];
    }

    /** Get: the cached project and whether there was one. */
    method Get(key: string) returns (val: Option<Project>, ok: bool)
      ensures ok <==> key in data
      ensures ok ==> val == Some(data[key])
      ensures !ok ==> val == None
    {
      if key in data {
        return Some(data[key]), true;
      }
      return None, false;
    }

    /** Set: stores val under key, replacing any earlier entry. */
    method Set(key: string, val: Project)
      modifies this
      ensures data == old(data)[key := val]
    {
      data := data[key := val];
    }
  }

  /** Get after Set of the same key returns the stored project. */
  method SetThenGet(cache: ProjectCache, key: string, val: Project) returns (got: Option<Project>, ok: bool)
    modifies cache
    ensures ok && got == Some(val)
  {
    cache.Set(key, val);
    got, ok := cache.Get(key);
  }

  // ----- URL normalisation -----

  /** The first step of normalizeRepoURL: the scp-like `git@host:path` form
      becomes `https://host/path`. */
  function Prepared(repoURL: string): string {
    if HasPrefix(repoURL, "git@") then "https://" + ReplaceFirst(TrimPrefix(repoURL, "git@"), ":", "/")
    else repoURL
  }

  /** One trailing "/", then ".git/", then ".git" are removed. */
  function Stripped(s: string): string {
    TrimSuffix(TrimSuffix(TrimSuffix(s, "/"), ".git/"), ".git")
  }

  /** The first two segments of a path, or the path itself when it has fewer. */
  function OwnerRepo(path: string): string {
    var parts := Split(path, "/");
    if |parts| >= 2 then parts[0] + "/" + parts[1] else path
  }

  /** The rest of normalizeRepoURL once the URL is prepared and stripped:
      the host and the first two path segments, or the string itself when
      it does not parse or has no host. */
  function HostAndOwnerRepo(lib: UrlLib, s: string): string {
    match Parse(lib, s)
    case Err(_) => s
    case Ok(u) =>
      if u.host == "" then s
      else
        var path := OwnerRepo(TrimPrefix(u.path, "/"));
        if path == "" then u.host else u.host + "/" + path
  }

  /** normalizeRepoURL */
  function NormalizeRepoURL(lib: UrlLib, repoURL: string): string {
    HostAndOwnerRepo(lib, Stripped(Prepared(repoURL)))
  }

  /** When the prepared and stripped URL does not parse, or has no host, it
      is the result. */
  lemma NormalizeFallback(lib: UrlLib, repoURL: string)
    requires Parse(lib, Stripped(Prepared(repoURL))).Err? || Parse(lib, Stripped(Prepared(repoURL))).value.host == ""
    ensures NormalizeRepoURL(lib, repoURL) == Stripped(Prepared(repoURL))
  {
  }

  /** A string without a colon that does not start with "/" has no scheme
      and hence no host: url.Parse rejects it or gives an empty host. */
  lemma NoSchemeNoHost(lib: UrlLib, raw: string)
    requires ':' !in raw && !HasPrefix(raw, "/")
    ensures Parse(lib, raw).Err? || Parse(lib, raw).value.host == ""
  {
    if lib.accepts(raw) {
      var u := Before(raw, '#');
      if u != "*" {
        PrefixOf(raw, u);
        NoColonNoScheme(u, 0);
        assert GetScheme(u) == Ok(("", u));
        var rest := Before(u, '?');
        PrefixOf(u, rest);
        assert ToLowerAscii("") == "";
        assert Parse(lib, raw) == ParseAfterScheme(lib, "", rest);
      }
    }
  }

  /** A prefix keeps out what the whole keeps out, and starts as it does. */
  lemma PrefixOf(s: string, p: string)
    requires HasPrefix(s, p)
    ensures ':' !in s ==> ':' !in p
    ensures !HasPrefix(s, "/") ==> !HasPrefix(p, "/")
  {
    if ':' in p {
      var k :| 0 <= k < |p| && p[k] == ':';
      assert s[k] == p[k];
    }
    if HasPrefix(p, "/") {
      assert s[0] == p[0];
      assert s[..1] == "/";
    }
  }

  lemma {:induction false} NoColonNoScheme(s: string, i: nat)
    requires i <= |s| && ':' !in s
    ensures SchemeColon(s, i) == None
    decreases |s| - i
  {
    if i < |s| {
      NoColonNoScheme(s, i + 1);
    }
  }

  /** A string without a colon that does not start with "/" comes back
      stripped and otherwise unchanged. */
  lemma NormalizeNoHost(lib: UrlLib, repoURL: string)
    requires ':' !in repoURL && !HasPrefix(repoURL, "/") && !HasPrefix(repoURL, "git@")
    ensures NormalizeRepoURL(lib, repoURL) == Stripped(repoURL)
  {
    var s := Stripped(repoURL);
    assert HasPrefix(repoURL, s) by {
      assert HasPrefix(repoURL, TrimSuffix(repoURL, "/"));
      assert HasPrefix(repoURL, TrimSuffix(TrimSuffix(repoURL, "/"), ".git/"));
    }
    assert ':' !in s && !HasPrefix(s, "/") by {
      if |s| > 0 { assert s[0] == repoURL[0]; }
      forall k | 0 <= k < |s| ensures s[k] != ':' { assert s[k] == repoURL[k]; }
    }
    NoSchemeNoHost(lib, s);
  }

  /** In a + b, with no '/' in a and b starting with '/', the first "/" is at |a|. */
  lemma FirstSlash(a: string, b: string)
    requires '/' !in a && |b| > 0 && b[0] == '/'
    ensures Index(a + b, "/") == |a|
  {
    var s := a + b;
    assert OccursAt(s, "/", |a|) by {
      assert s[|a|..|a| + 1] == [b[0]];
    }
    var i := Index(s, "/");
    assert s[i..i + 1] == "/";
    assert forall k :: 0 <= k < |a| ==> s[k] == a[k];
  }

  /** A string without '/' has no "/" in it. */
  lemma NoSlash(s: string)
    requires '/' !in s
    ensures Index(s, "/") < 0
  {
    forall j | 0 <= j < |s| ensures !OccursAt(s, "/", j) {
      assert s[j..j + 1] == [s[j]];
    }
  }

  /** A path "/" + owner + "/" + repo + rest, with rest empty or starting
      with "/", is cut down to owner/repo. */
  lemma OwnerRepoOf(owner: string, repo: string, rest: string)
    requires |owner| > 0 && |repo| > 0 && '/' !in owner && '/' !in repo
    requires rest == "" || rest[0] == '/'
    ensures OwnerRepo(TrimPrefix("/" + owner + "/" + repo + rest, "/")) == owner + "/" + repo
  {
    var t := "/" + repo + rest;
    TrimSlash(owner, repo, rest);
    SplitOwner(owner, t);
    assert t[1..] == repo + rest;
    RepoHead(repo, rest);
    var parts := Split(owner + t, "/");
    assert |parts| >= 2 && parts[0] == owner && parts[1] == repo;
  }

  lemma TrimSlash(owner: string, repo: string, rest: string)
    ensures TrimPrefix("/" + owner + "/" + repo + rest, "/") == owner + ("/" + repo + rest)
  {
    assert ("/" + owner + "/" + repo + rest)[1..] == owner + ("/" + repo + rest);
  }

  /** Splitting owner + t, with no '/' in owner and t starting with '/'. */
  lemma SplitOwner(owner: string, t: string)
    requires '/' !in owner && |t| > 0 && t[0] == '/'
    ensures Split(owner + t, "/") == [owner] + Split(t[1..], "/")
  {
    FirstSlash(owner, t);
    assert (owner + t)[..|owner|] == owner;
    assert (owner + t)[|owner| + 1..] == t[1..];
  }

  /** The first piece of repo + rest is repo. */
  lemma RepoHead(repo: string, rest: string)
    requires '/' !in repo
    requires rest == "" || rest[0] == '/'
    ensures Split(repo + rest, "/")[0] == repo
  {
    if rest == "" {
      assert repo + rest == repo;
      NoSlash(repo);
    } else {
      FirstSlash(repo, rest);
      assert (repo + rest)[..|repo|] == repo;
    }
  }

  /** A hierarchical URL scheme "://" host path, whose path is "/" owner "/"
      repo rest with rest empty or a further path, leaves host/owner/repo:
      the scheme and the further path play no part. */
  lemma HostAndOwnerRepoOf(lib: UrlLib, scheme: string, host: string, path: string, owner: string, repo: string, rest: string)
    requires |scheme| > 0 && forall i :: 0 <= i < |scheme| ==> 'a' <= scheme[i] <= 'z'
    requires |host| > 0 && PlainHost(host)
    requires |owner| > 0 && |repo| > 0 && '/' !in owner && '/' !in repo
    requires rest == "" || rest[0] == '/'
    requires path == "/" + owner + "/" + repo + rest && PlainSegment(path)
    requires lib.accepts(scheme + "://" + host + path)
    requires lib.unescape(host) == host && lib.unescape(path) == path
    ensures HostAndOwnerRepo(lib, scheme + "://" + host + path) == host + "/" + owner + "/" + repo
  {
    HostAndPath(lib, scheme, host, path);
    OwnerRepoOf(owner, repo, rest);
    Assoc(host + "/", owner + "/", repo);
  }

  lemma Assoc(a: string, b: string, c: string)
    ensures a + (b + c) == a + b + c
  {
  }

  /** A hierarchical URL scheme "://" host path leaves the host and the
      first two segments of the path. */
  lemma HostAndPath(lib: UrlLib, scheme: string, host: string, path: string)
    requires |scheme| > 0 && forall i :: 0 <= i < |scheme| ==> 'a' <= scheme[i] <= 'z'
    requires |host| > 0 && PlainHost(host)
    requires |path| > 0 && path[0] == '/' && PlainSegment(path)
    requires lib.accepts(scheme + "://" + host + path)
    requires lib.unescape(host) == host && lib.unescape(path) == path
    ensures OwnerRepo(TrimPrefix(path, "/")) != "" ==>
      HostAndOwnerRepo(lib, scheme + "://" + host + path) == host + "/" + OwnerRepo(TrimPrefix(path, "/"))
  {
    ParseHierarchical(lib, scheme, host, path);
    HostAndOwnerRepoParsed(lib, scheme + "://" + host + path, Url(scheme, host, path));
  }

  /** Once a string parses to a URL with a host, the result is that host
      followed by the first two path segments, if any. */
  lemma HostAndOwnerRepoParsed(lib: UrlLib, s: string, u: Url)
    requires Parse(lib, s) == Ok(u) && u.host != ""
    ensures OwnerRepo(TrimPrefix(u.path, "/")) == "" ==> HostAndOwnerRepo(lib, s) == u.host
    ensures OwnerRepo(TrimPrefix(u.path, "/")) != "" ==>
      HostAndOwnerRepo(lib, s) == u.host + "/" + OwnerRepo(TrimPrefix(u.path, "/"))
  {
  }

  predicate PlainHost(host: string) {
    '/' !in host && '@' !in host && '#' !in host && '?' !in host && ':' !in host
  }

  /** A path segment (or a run of them) without a query or fragment. */
  predicate PlainSegment(seg: string) {
    '#' !in seg && '?' !in seg
  }

  /** Stripping a base that ends in "/" and a repository name (not ending in
      ".git"), followed by one of the strippable tails, gives the base. */
  lemma StripTail(base: string, repo: string, tail: string)
    requires |repo| > 0 && '/' !in repo && !HasSuffix(repo, ".git")
    requires HasSuffix(base, "/" + repo)
    requires tail in {"", "/", ".git", ".git/"}
    ensures Stripped(base + tail) == base
  {
    var n := |base|;
    assert base[n - 1] == repo[|repo| - 1];
    assert !HasSuffix(base, ".git") by {
      NotGitSuffix(base, repo);
    }
    if tail == "/" {
      assert TrimSuffix(base + "/", "/") == base;
    } else if tail == ".git" {
      assert (base + ".git")[n + 3] != '/';
      assert TrimSuffix(base + ".git", ".git") == base;
    } else if tail == ".git/" {
      var s1 := TrimSuffix(base + ".git/", "/");
      assert s1 == base + ".git";
      assert s1[n + 3] == 't';
      var s2 := TrimSuffix(s1, ".git/");
      assert s2 == s1;
      assert TrimSuffix(s2, ".git") == base;
    } else {
      assert base[n - 1] != '/';
      assert base + tail == base;
    }
  }

  /** A URL ending in "/" and a last segment that ends in neither "/" nor
      ".git" is left as it is. */
  lemma StripNothing(raw: string, last: string)
    requires HasSuffix(raw, "/" + last) && |last| > 0
    requires !HasSuffix(last, "/") && !HasSuffix(last, ".git")
    ensures Stripped(raw) == raw
  {
    assert raw[|raw| - 1] == last[|last| - 1] != '/';
    NotGitSuffix(raw, last);
  }

  lemma NotGitSuffix(base: string, repo: string)
    requires !HasSuffix(repo, ".git")
    requires HasSuffix(base, "/" + repo)
    ensures !HasSuffix(base, ".git")
  {
    var n := |base|;
    var m := |repo|;
    assert base[n - m - 1..] == "/" + repo;
    if m >= 4 {
      assert base[n - 4..] == repo[m - 4..];
    } else {
      assert base[n - m - 1] == '/';
      assert n - 4 <= n - m - 1;
    }
  }

  /** A URL that starts with a scheme and "://" is not in the scp-like form. */
  lemma NotScpLike(scheme: string, host: string, rest: string)
    requires |scheme| > 0 && forall i :: 0 <= i < |scheme| ==> 'a' <= scheme[i] <= 'z'
    ensures !HasPrefix(scheme + "://" + host + rest, "git@")
  {
    var raw := scheme + "://" + host + rest;
    assert raw[|scheme|] == ':';
    if |scheme| >= 4 {
      assert raw[3] == scheme[3];
    }
  }

  lemma NormalizeVia(lib: UrlLib, raw: string, s: string)
    requires Stripped(Prepared(raw)) == s
    ensures NormalizeRepoURL(lib, raw) == HostAndOwnerRepo(lib, s)
  {
  }

  /** A hierarchical URL scheme "://" host path, whose path is "/" owner "/"
      repo, followed by nothing, "/", ".git" or ".git/", normalises to
      host/owner/repo. */
  lemma NormalizeHierarchical(lib: UrlLib, scheme: string, host: string, path: string, owner: string, repo: string, tail: string)
    requires |scheme| > 0 && forall i :: 0 <= i < |scheme| ==> 'a' <= scheme[i] <= 'z'
    requires |host| > 0 && PlainHost(host)
    requires |owner| > 0 && |repo| > 0 && '/' !in owner && '/' !in repo
    requires path == "/" + owner + "/" + repo && PlainSegment(path)
    requires !HasSuffix(repo, ".git")
    requires tail in {"", "/", ".git", ".git/"}
    requires lib.accepts(scheme + "://" + host + path)
    requires lib.unescape(host) == host && lib.unescape(path) == path
    ensures NormalizeRepoURL(lib, scheme + "://" + host + path + tail) == host + "/" + owner + "/" + repo
  {
    HierarchicalStrip(scheme, host, path, owner, repo, tail);
    NormalizeVia(lib, scheme + "://" + host + path + tail, scheme + "://" + host + path);
    assert path == "/" + owner + "/" + repo + "";
    HostAndOwnerRepoOf(lib, scheme, host, path, owner, repo, "");
  }

  /** Stripping a hierarchical URL's tail leaves scheme "://" host path. */
  lemma HierarchicalStrip(scheme: string, host: string, path: string, owner: string, repo: string, tail: string)
    requires |scheme| > 0 && forall i :: 0 <= i < |scheme| ==> 'a' <= scheme[i] <= 'z'
    requires |repo| > 0 && '/' !in repo && !HasSuffix(repo, ".git")
    requires path == "/" + owner + "/" + repo
    requires tail in {"", "/", ".git", ".git/"}
    ensures Stripped(Prepared(scheme + "://" + host + path + tail)) == scheme + "://" + host + path
  {
    var base := scheme + "://" + host + path;
    NotScpLike(scheme, host, path + tail);
    assert scheme + "://" + host + path + tail == scheme + "://" + host + (path + tail);
    LastSegment(scheme + "://" + host, "/" + owner, repo);
    StripTail(base, repo, tail);
  }

  /** A path ending in "/" last ends the URL in "/" last. */
  lemma LastSegment(prefix: string, x: string, last: string)
    ensures HasSuffix(prefix + (x + "/" + last), "/" + last)
  {
    var s := prefix + (x + "/" + last);
    assert s == (prefix + x) + ("/" + last);
  }

  /** Path segments after owner/repo are dropped. */
  lemma NormalizeExtraSegments(lib: UrlLib, scheme: string, host: string, path: string, owner: string, repo: string, more: string)
    requires |scheme| > 0 && forall i :: 0 <= i < |scheme| ==> 'a' <= scheme[i] <= 'z'
    requires |host| > 0 && PlainHost(host)
    requires |owner| > 0 && |repo| > 0 && '/' !in owner && '/' !in repo
    requires path == "/" + owner + "/" + repo + "/" + more && PlainSegment(path)
    requires !HasSuffix(more, "/") && !HasSuffix(more, ".git")
    requires |more| > 0
    requires lib.accepts(scheme + "://" + host + path)
    requires lib.unescape(host) == host && lib.unescape(path) == path
    ensures NormalizeRepoURL(lib, scheme + "://" + host + path) == host + "/" + owner + "/" + repo
  {
    ExtraStrip(scheme, host, path, "/" + owner + "/" + repo, more);
    NormalizeVia(lib, scheme + "://" + host + path, scheme + "://" + host + path);
    ExtraHost(lib, scheme, host, path, owner, repo, more);
  }

  lemma ExtraStrip(scheme: string, host: string, path: string, x: string, more: string)
    requires |scheme| > 0 && forall i :: 0 <= i < |scheme| ==> 'a' <= scheme[i] <= 'z'
    requires path == x + "/" + more
    requires !HasSuffix(more, "/") && !HasSuffix(more, ".git")
    requires |more| > 0
    ensures Stripped(Prepared(scheme + "://" + host + path)) == scheme + "://" + host + path
  {
    NotScpLike(scheme, host, path);
    LastSegment(scheme + "://" + host, x, more);
    StripNothing(scheme + "://" + host + path, more);
  }

  lemma ExtraHost(lib: UrlLib, scheme: string, host: string, path: string, owner: string, repo: string, more: string)
    requires |scheme| > 0 && forall i :: 0 <= i < |scheme| ==> 'a' <= scheme[i] <= 'z'
    requires |host| > 0 && PlainHost(host)
    requires |owner| > 0 && |repo| > 0 && '/' !in owner && '/' !in repo
    requires path == "/" + owner + "/" + repo + "/" + more && PlainSegment(path)
    requires lib.accepts(scheme + "://" + host + path)
    requires lib.unescape(host) == host && lib.unescape(path) == path
    ensures HostAndOwnerRepo(lib, scheme + "://" + host + path) == host + "/" + owner + "/" + repo
  {
    assert path == "/" + owner + "/" + repo + ("/" + more);
    HostAndOwnerRepoOf(lib, scheme, host, path, owner, repo, "/" + more);
  }

  /** The scp-like form git@host:owner/repo is read as https://host/owner/repo. */
  lemma PreparedSsh(host: string, rest: string)
    requires ':' !in host
    ensures Prepared("git@" + host + ":" + rest) == "https://" + host + "/" + rest
  {
    var s := "git@" + host + ":" + rest;
    var t := host + ":" + rest;
    assert s == "git@" + t;
    assert HasPrefix(s, "git@") && TrimPrefix(s, "git@") == t by {
      assert s[..4] == "git@" && s[4..] == t;
    }
    FirstColon(host, rest);
    assert t[..|host|] == host && t[|host| + 1..] == rest;
    assert "https://" + (host + "/" + rest) == "https://" + host + "/" + rest;
  }

  /** In a + ":" + b, with no ':' in a, the first ":" is at |a|. */
  lemma FirstColon(a: string, b: string)
    requires ':' !in a
    ensures Index(a + ":" + b, ":") == |a|
  {
    var s := a + ":" + b;
    assert OccursAt(s, ":", |a|) by {
      assert s[|a|..|a| + 1] == ":";
    }
    forall j | 0 <= j < |a| ensures !OccursAt(s, ":", j) {
      assert s[j..j + 1] == [a[j]];
    }
  }

  /** git@host:path normalises exactly as https://host/path does. */
  lemma NormalizeSsh(lib: UrlLib, host: string, path: string)
    requires PlainHost(host)
    ensures NormalizeRepoURL(lib, "git@" + host + ":" + path) == NormalizeRepoURL(lib, "https://" + host + "/" + path)
  {
    PreparedSsh(host, path);
    var https := "https://" + host + "/" + path;
    assert https[0] == 'h';
    NormalizeVia(lib, "git@" + host + ":" + path, Stripped(https));
    NormalizeVia(lib, https, Stripped(https));
  }

  // ----- repository data -----

  const ProjectsEndpoint: string := "https://api.deps.dev/v3/projects/"

  /** The request GetRepoDataWithCache makes for a normalised URL. */
  function ProjectRequestURL(queryEscape: string -> string, key: string): string {
    ProjectsEndpoint + queryEscape(key)
  }

  /** The checks made on a deps.dev response, in order: a transport error,
      404 (with the caller's message), any other status but 200, a body that
      does not decode. */
  function CheckResponse<T>(resp: HttpResult<T>, notFound: string): (r: Result<T>)
    ensures r.Ok? <==> resp.HttpResponse? && resp.status == 200 && resp.body.Ok?
    ensures r.Ok? ==> r.value == resp.body.value
    ensures resp.TransportError? ==> r == Err("failed to make request to deps.dev: " + resp.err)
    ensures resp.HttpResponse? && resp.status == 404 ==> r == Err(notFound)
    ensures resp.HttpResponse? && resp.status != 404 && resp.status != 200 ==>
      r == Err("deps.dev API request failed with status " + Itoa(resp.status))
  {
    match resp
    case TransportError(e) => Err("failed to make request to deps.dev: " + e)
    case HttpResponse(status, body) =>
      if status == 404 then Err(notFound)
      else if status != 200 then Err("deps.dev API request failed with status " + Itoa(status))
      else
        match body
        case Err(e) => Err("failed to decode deps.dev response: " + e)
        case Ok(v) => Ok(v)
  }

  const ProjectNotFound: string := "repository not found in deps.dev"

  /** What deps.dev answers for a normalised repository URL. */
  function FetchProject(get: string -> HttpResult<Project>, queryEscape: string -> string, key: string): Result<Project> {
    CheckResponse(get(ProjectRequestURL(queryEscape, key)), ProjectNotFound)
  }

  /** Every cached project is what deps.dev answers for its key. */
  ghost predicate Faithful(data: map<string, Project>, get: string -> HttpResult<Project>, queryEscape: string -> string) {
    forall k :: k in data ==> FetchProject(get, queryEscape, k) == Ok(data[k])
  }

  /** GetRepoDataWithCache: the project of a repository, from the cache when
      it holds the normalised URL, otherwise from deps.dev (cached when the
      lookup succeeds). `requested` is the URL requested, if any. */
  method GetRepoDataWithCache(lib: UrlLib, queryEscape: string -> string, get: string -> HttpResult<Project>,
                              repoURL: string, cache: ProjectCache?)
    returns (r: Result<Project>, requested: Option<string>)
    modifies cache
    ensures var key := NormalizeRepoURL(lib, repoURL);
      if cache != null && key in old(cache.data) then
        r == Ok(old(cache.data)[key]) && requested == None && cache.data == old(cache.data)
      else
        requested == Some(ProjectRequestURL(queryEscape, key)) && r == FetchProject(get, queryEscape, key) &&
        (cache != null ==> cache.data == if r.Ok? then old(cache.data)[key := r.value] else old(cache.data))
    ensures cache != null && Faithful(old(cache.data), get, queryEscape) ==>
      r == FetchProject(get, queryEscape, NormalizeRepoURL(lib, repoURL)) && Faithful(cache.data, get, queryEscape)
  {
    var key := NormalizeRepoURL(lib, repoURL);
    if cache != null {
      var cached, found := cache.Get(key);
      if found {
        return Ok(cached.value), None;
      }
    }
    var url := ProjectRequestURL(queryEscape, key);
    requested := Some(url);
    r := CheckResponse(get(url), ProjectNotFound);
    if r.Ok? && cache != null {
      cache.Set(key, r.value);
    }
  }

  /** GetRepoDataWithLogger: no cache, so deps.dev is always asked. */
  method GetRepoDataWithLogger(lib: UrlLib, queryEscape: string -> string, get: string -> HttpResult<Project>, repoURL: string)
    returns (r: Result<Project>, requested: Option<string>)
    ensures requested == Some(ProjectRequestURL(queryEscape, NormalizeRepoURL(lib, repoURL)))
    ensures r == FetchProject(get, queryEscape, NormalizeRepoURL(lib, repoURL))
  {
    r, requested := GetRepoDataWithCache(lib, queryEscape, get, repoURL, null);
  }

  /** Asking twice for the same repository through one cache: a successful
      first answer is reused, so the second makes no request and agrees. */
  method AskTwice(lib: UrlLib, queryEscape: string -> string, get: string -> HttpResult<Project>,
                  repoURL: string, cache: ProjectCache)
    returns (first: Result<Project>, second: Result<Project>, secondRequest: Option<string>)
    modifies cache
    ensures first.Ok? ==> second == first && secondRequest == None
  {
    var req1;
    first, req1 := GetRepoDataWithCache(lib, queryEscape, get, repoURL, cache);
    second, secondRequest := GetRepoDataWithCache(lib, queryEscape, get, repoURL, cache);
  }

  // ----- retry back-off -----

  /** parseRetryAfterHeader. untilDate stands for http.ParseTime followed by
      time.Until: the duration until the HTTP date v names, or None when v is
      not an HTTP date. */
  function ParseRetryAfterHeader(v: string, untilDate: string -> Option<int>): (r: (int, bool))
    ensures !r.1 ==> r.0 == 0
    ensures r.1 ==> v != ""
  {
    if v == "" then (0, false)
    else
      match ParseInt64(v)
      case Some(sec) => (Seconds(sec), true)
      case None =>
        match untilDate(v)
        case Some(d) => if d > 0 then (d, true) else (0, false)
        case None => (0, false)
  }

  /** A Retry-After of n seconds (n in int64, written in decimal) is a wait of
      n seconds, taken modulo 2^64 as Go's Duration multiplication is. */
  lemma RetryAfterSeconds(n: int, untilDate: string -> Option<int>)
    requires InInt64(n)
    ensures ParseRetryAfterHeader(Itoa(n), untilDate) == (Seconds(n), true)
  {
    ParseItoa(n);
  }

  /** A date in the future gives the time until it; a date in the past gives
      no wait. */
  lemma RetryAfterDate(v: string, untilDate: string -> Option<int>)
    requires v != "" && ParseInt64(v) == None && untilDate(v).Some?
    ensures untilDate(v).value > 0 ==> ParseRetryAfterHeader(v, untilDate) == (untilDate(v).value, true)
    ensures untilDate(v).value <= 0 ==> ParseRetryAfterHeader(v, untilDate) == (0, false)
  {
  }

  /** From 9223372037 seconds on, the nanosecond count overflows and comes
      back as a negative wait that is reported as valid. */
  lemma RetryAfterOverflow(n: int, untilDate: string -> Option<int>)
    requires 9223372037 <= n <= 18446744073
    ensures ParseRetryAfterHeader(Itoa(n), untilDate) == (n * Second - TwoTo64, true)
    ensures n * Second - TwoTo64 < 0
  {
    SecondsOverflow(n);
    RetryAfterSeconds(n, untilDate);
  }

  /** The retry client's Backoff hook. resp is None for a transport error and
      otherwise carries the Retry-After header ("" when absent);
      defaultBackoff is retryablehttp.DefaultBackoff's answer. */
  function RetryBackoff(resp: Option<string>, defaultBackoff: int, untilDate: string -> Option<int>): (d: int)
    ensures resp.None? ==> d == 0
    ensures resp == Some("") ==> d == defaultBackoff
  {
    match resp
    case None => 0
    case Some(retryAfter) =>
      if retryAfter != "" && ParseRetryAfterHeader(retryAfter, untilDate).1 then ParseRetryAfterHeader(retryAfter, untilDate).0
      else defaultBackoff
  }

  /** A server that says how long to wait is obeyed; a header that cannot be
      read falls back to the default. */
  lemma BackoffHonoursRetryAfter(n: int, v: string, defaultBackoff: int, untilDate: string -> Option<int>)
    requires InInt64(n)
    ensures RetryBackoff(Some(Itoa(n)), defaultBackoff, untilDate) == Seconds(n)
    ensures !ParseRetryAfterHeader(v, untilDate).1 ==> RetryBackoff(Some(v), defaultBackoff, untilDate) == defaultBackoff
  {
    RetryAfterSeconds(n, untilDate);
  }

  // ----- repository of a package version -----

  /** The deps.dev coordinates of a package version. */
  datatype VersionKey = VersionKey(system: string, name: string, version: string)

  /** The purl parsing of GetRepoURLFromPackage: "pkg:", the type up to the
      first "/" (upper-cased), the name up to the last "@", the version up
      to the first "?"; a Maven name has its "/" turned into ":". */
  function ParseVersionKey(purlStr: string): (r: Result<VersionKey>)
    ensures !HasPrefix(purlStr, "pkg:") ==> r == Err("invalid purl format: " + purlStr)
    ensures HasPrefix(purlStr, "pkg:") && '/' !in purlStr ==> r == Err("invalid purl format, missing /: " + purlStr)
    ensures r.Ok? ==> '?' !in r.value.version && (r.value.system == "MAVEN" ==> '/' !in r.value.name)
  {
    if !HasPrefix(purlStr, "pkg:") then Err("invalid purl format: " + purlStr)
    else
      var remaining := TrimPrefix(purlStr, "pkg:");
      var slash := Index(remaining, "/");
      assert '/' !in purlStr ==> slash == -1 by {
        if '/' !in purlStr {
          assert forall k :: 0 <= k < |remaining| ==> remaining[k] == purlStr[k + 4];
          NoSlash(remaining);
        }
      }
      if slash == -1 then Err("invalid purl format, missing /: " + purlStr)
      else ParseNameVersion(ToUpper(remaining[..slash]), remaining[slash + 1..], purlStr)
  }

  /** The part of the purl after the type: name "@" version, qualifiers cut. */
  function ParseNameVersion(system: string, rest: string, purlStr: string): (r: Result<VersionKey>)
    ensures r.Ok? ==> '?' !in r.value.version && (r.value.system == "MAVEN" ==> '/' !in r.value.name)
  {
    var at := LastIndexOf(rest, '@');
    if at == -1 then Err("purl missing version: " + purlStr)
    else
      var name := rest[..at];
      var version := Before(rest[at + 1..], '?');
      assert system == "MAVEN" ==> '/' !in DepsName(system, name) by {
        ReplaceAllRemoves(name, '/', ':');
        assert "/" == ['/'] && ":" == [':'];
      }
      Ok(VersionKey(system, DepsName(system, name), version))
  }

  /** The name of a package as deps.dev spells it. */
  function DepsName(system: string, name: string): string {
    if system == "MAVEN" then ReplaceAll(name, "/", ":") else name
  }

  /** A purl written as pkg:type/name@version, optionally followed by
      qualifiers, yields the upper-cased type, the name (with ":" for "/" in
      Maven) and the version. */
  lemma ParseVersionKeyOf(typ: string, name: string, version: string, qualifiers: string)
    requires '/' !in typ && '@' !in version && '?' !in version
    requires qualifiers == "" || (qualifiers[0] == '?' && '@' !in qualifiers)
    ensures ParseVersionKey("pkg:" + typ + "/" + name + "@" + version + qualifiers)
         == Ok(VersionKey(ToUpper(typ), DepsName(ToUpper(typ), name), version))
  {
    var purlStr := "pkg:" + typ + "/" + name + "@" + version + qualifiers;
    var rest := name + "@" + version + qualifiers;
    assert purlStr == "pkg:" + typ + "/" + rest;
    TypeThenRest(typ, rest);
    NameVersionOf(ToUpper(typ), name, version, qualifiers, purlStr);
  }

  lemma TypeThenRest(typ: string, rest: string)
    requires '/' !in typ
    ensures ParseVersionKey("pkg:" + typ + "/" + rest) == ParseNameVersion(ToUpper(typ), rest, "pkg:" + typ + "/" + rest)
  {
    var purlStr := "pkg:" + typ + "/" + rest;
    var remaining := typ + "/" + rest;
    assert HasPrefix(purlStr, "pkg:") && TrimPrefix(purlStr, "pkg:") == remaining by {
      assert purlStr == "pkg:" + remaining;
    }
    FirstSlash(typ, "/" + rest);
    assert remaining == typ + ("/" + rest);
    assert remaining[..|typ|] == typ;
    assert remaining[|typ| + 1..] == rest;
  }

  lemma NameVersionOf(system: string, name: string, version: string, qualifiers: string, purlStr: string)
    requires '@' !in version && '?' !in version
    requires qualifiers == "" || (qualifiers[0] == '?' && '@' !in qualifiers)
    ensures ParseNameVersion(system, name + "@" + version + qualifiers, purlStr)
         == Ok(VersionKey(system, DepsName(system, name), version))
  {
    var rest := name + "@" + version + qualifiers;
    var vq := version + qualifiers;
    assert LastIndexOf(rest, '@') == |name| && rest[..|name|] == name && rest[|name| + 1..] == vq by {
      assert rest == name + "@" + vq;
      assert rest[|name| + 1..] == vq;
      assert '@' !in vq;
      LastIndexOfAt(rest, '@', |name|);
    }
    VersionBeforeQualifiers(version, qualifiers);
  }

  lemma VersionBeforeQualifiers(version: string, qualifiers: string)
    requires '?' !in version
    requires qualifiers == "" || qualifiers[0] == '?'
    ensures Before(version + qualifiers, '?') == version
  {
    var vq := version + qualifiers;
    if qualifiers == "" {
      assert vq == version;
    } else {
      assert vq[..|version|] == version;
      FirstIndexOfAt(vq, '?', |version|);
    }
  }

  /** In Maven, group/artifact becomes group:artifact. */
  lemma MavenName(group: string, artifact: string)
    requires '/' !in group && '/' !in artifact
    ensures DepsName("MAVEN", group + "/" + artifact) == group + ":" + artifact
  {
    var n := group + "/" + artifact;
    FirstSlash(group, "/" + artifact);
    assert n == group + ("/" + artifact);
    NoSlash(artifact);
    assert n[|group| + 1..] == artifact;
    assert ReplaceAll(artifact, "/", ":") == artifact;
  }

  /** The request GetRepoURLFromPackage makes for a package version. */
  function VersionRequestURL(pathEscape: string -> string, k: VersionKey): string {
    "https://api.deps.dev/v3/systems/" + pathEscape(k.system) + "/packages/" + pathEscape(k.name)
      + "/versions/" + pathEscape(k.version)
  }

  const SourceRepo: string := "SOURCE_REPO"
  const IssueTracker: string := "ISSUE_TRACKER"

  /** A related project of the given relation whose id looks like a
      repository path. */
  predicate Qualifies(rp: RelatedProject, relation: string) {
    rp.relationType == relation && rp.id != "" && Contains(rp.id, "/")
  }

  /** The id of the first related project that qualifies for the relation. */
  function FirstQualifying(rps: seq<RelatedProject>, relation: string): (r: Option<string>)
    ensures r.None? <==> forall i :: 0 <= i < |rps| ==> !Qualifies(rps[i], relation)
    ensures r.Some? ==> exists i :: (0 <= i < |rps| && Qualifies(rps[i], relation) && r.value == rps[i].id
      && forall j :: 0 <= j < i ==> !Qualifies(rps[j], relation))
  {
    if |rps| == 0 then None
    else if Qualifies(rps[0], relation) then Some(rps[0].id)
    else
      var r := FirstQualifying(rps[1..], relation);
      assert forall i :: 1 <= i < |rps| ==> rps[i] == rps[1..][i - 1];
      assert r.Some? ==> exists i :: (1 <= i < |rps| && Qualifies(rps[i], relation) && r.value == rps[i].id
        && forall j :: 0 <= j < i ==> !Qualifies(rps[j], relation)) by {
        if r.Some? {
          var i :| 0 <= i < |rps[1..]| && Qualifies(rps[1..][i], relation) && r.value == rps[1..][i].id
            && forall j :: 0 <= j < i ==> !Qualifies(rps[1..][j], relation);
          assert rps[i + 1] == rps[1..][i];
        }
      }
      r
  }

  /** The repository chosen from a package version's related projects: the
      first qualifying SOURCE_REPO, else the first qualifying ISSUE_TRACKER. */
  function ChooseRepo(rps: seq<RelatedProject>): Option<string> {
    match FirstQualifying(rps, SourceRepo)
    case Some(id) => Some("https://" + id)
    case None =>
      match FirstQualifying(rps, IssueTracker)
      case Some(id) => Some("https://" + id)
      case None => None
  }

  /** A qualifying SOURCE_REPO wins over every ISSUE_TRACKER, wherever it
      stands; the result is "https://" and a qualifying project's id; there
      is none exactly when no project qualifies for either relation. */
  lemma ChooseRepoSpec(rps: seq<RelatedProject>)
    ensures ChooseRepo(rps).None? <==>
      forall i :: 0 <= i < |rps| ==> !Qualifies(rps[i], SourceRepo) && !Qualifies(rps[i], IssueTracker)
    ensures (exists i :: 0 <= i < |rps| && Qualifies(rps[i], SourceRepo)) ==>
      exists i :: 0 <= i < |rps| && Qualifies(rps[i], SourceRepo) && ChooseRepo(rps) == Some("https://" + rps[i].id)
    ensures ChooseRepo(rps).Some? ==>
      exists i :: 0 <= i < |rps| && (Qualifies(rps[i], SourceRepo) || Qualifies(rps[i], IssueTracker))
        && ChooseRepo(rps) == Some("https://" + rps[i].id)
  {
  }

  const NoRepoFound: string := "no SOURCE_REPO found in relatedProjects"
  const VersionNotFound: string := "package version not found in deps.dev"

  /** What GetRepoURLFromPackage answers. */
  function RepoURLFromPackage(pathEscape: string -> string, get: string -> HttpResult<PackageVersion>, purlStr: string): Result<string> {
    match ParseVersionKey(purlStr)
    case Err(e) => Err(e)
    case Ok(k) =>
      match CheckResponse(get(VersionRequestURL(pathEscape, k)), VersionNotFound)
      case Err(e) => Err(e)
      case Ok(pv) =>
        match ChooseRepo(pv.relatedProjects)
        case Some(url) => Ok(url)
        case None => Err(NoRepoFound)
  }

  /** GetRepoURLFromPackage: the repository URL of a package version, by its
      purl, from deps.dev's related projects. `requested` is the URL
      requested, if any. */
  method GetRepoURLFromPackage(pathEscape: string -> string, get: string -> HttpResult<PackageVersion>, purlStr: string)
    returns (r: Result<string>, requested: Option<string>)
    ensures r == RepoURLFromPackage(pathEscape, get, purlStr)
    ensures requested.Some? <==> ParseVersionKey(purlStr).Ok?
    ensures requested.Some? ==> requested.value == VersionRequestURL(pathEscape, ParseVersionKey(purlStr).value)
  {
    var parsed := ParseVersionKey(purlStr);
    if parsed.Err? {
      return Err(parsed.error), None;
    }
    var url := VersionRequestURL(pathEscape, parsed.value);
    requested := Some(url);
    var resp := CheckResponse(get(url), VersionNotFound);
    if resp.Err? {
      return Err(resp.error), requested;
    }
    var rps := resp.value.relatedProjects;
    var i := 0;
    while i < |rps|
      invariant 0 <= i <= |rps|
      invariant FirstQualifying(rps[i..], SourceRepo) == FirstQualifying(rps, SourceRepo)
    {
      if rps[i].relationType == SourceRepo && rps[i].id != "" {
        if Contains(rps[i].id, "/") {
          return Ok("https://" + rps[i].id), requested;
        }
      }
      assert rps[i..][1..] == rps[i + 1..];
      i := i + 1;
    }
    i := 0;
    while i < |rps|
      invariant 0 <= i <= |rps|
      invariant FirstQualifying(rps[i..], IssueTracker) == FirstQualifying(rps, IssueTracker)
    {
      if rps[i].relationType == IssueTracker && rps[i].id != "" {
        if Contains(rps[i].id, "/") {
          return Ok("https://" + rps[i].id), requested;
        }
      }
      assert rps[i..][1..] == rps[i + 1..];
      i := i + 1;
    }
    r := Err(NoRepoFound);
  }
}
