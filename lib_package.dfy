/** The older request builders in lib/package.go: the registry table and
    package naming for ecosyste.ms, and the Snyk token guard. */
module LibPackage {
  import opened Base
  import opened GoStrings
  import opened Purl

  /** The older registry table: 11 types, apk going to "alpine". */
  const Registries: map<string, string> := map[
    "npm" := "npmjs.org",
    "golang" := "proxy.golang.org",
    "nuget" := "nuget.org",
    "hex" := "hex.pm",
    "maven" := "repo1.maven.org",
    "pypi" := "pypi.org",
    "composer" := "packagist.org",
    "gem" := "rubygems.org",
    "cargo" := "crates.io",
    "cocoapods" := "cocoapod.org",
    "apk" := "alpine"]

  /** purlToEcosystemsRegistry: the table lookup, "" for any other type. */
  function PurlToEcosystemsRegistry(p: PackageURL): (r: string)
    ensures r != "" <==> p.typ in Registries
  {
    if p.typ in Registries then Registries[p.typ] else ""
  }

  /** apk goes to "alpine", and types the table lacks (docker, swift) get "". */
  lemma RegistryTable(p: PackageURL)
    ensures p.typ == "apk" ==> PurlToEcosystemsRegistry(p) == "alpine"
    ensures p.typ == "docker" || p.typ == "swift" ==> PurlToEcosystemsRegistry(p) == ""
  {
  }

  /** purlToEcosystemsName. `queryEscape` stands for url.QueryEscape. */
  function PurlToEcosystemsName(p: PackageURL, queryEscape: string -> string): (r: string)
    ensures p.namespace == "" ==> r == p.name
    ensures p.namespace != "" && p.typ == "npm" ==> r == queryEscape(p.namespace + "/" + p.name)
    ensures p.namespace != "" && p.typ != "npm" ==> r == p.namespace + ":" + p.name
    ensures p.typ != "npm" ==> HasSuffix(r, p.name)
  {
    if p.typ == "npm" then
      if p.namespace != "" then queryEscape(p.namespace + "/" + p.name) else p.name
    else
      if p.namespace != "" then p.namespace + ":" + p.name else p.name
  }

  /** Outside npm, two purls of one name but different namespaces are sent
      under different names: the namespace and its colon stay in front. */
  lemma NameKeepsNamespace(p: PackageURL, q: PackageURL, queryEscape: string -> string)
    requires p.typ != "npm" && q.typ != "npm" && p.name == q.name
    requires p.namespace != q.namespace
    ensures PurlToEcosystemsName(p, queryEscape) != PurlToEcosystemsName(q, queryEscape)
  {
    var rp := PurlToEcosystemsName(p, queryEscape);
    var rq := PurlToEcosystemsName(q, queryEscape);
    if p.namespace == "" || q.namespace == "" {
      assert |rp| != |rq|;
    } else if |p.namespace| != |q.namespace| {
      assert |rp| != |rq|;
    } else {
      var k :| 0 <= k < |p.namespace| && p.namespace[k] != q.namespace[k];
      assert rp[k] == p.namespace[k] && rq[k] == q.namespace[k];
    }
  }

  const NoTokenMessage: string := "Must provide a SNYK_TOKEN environment variable"

  /** The requests a Snyk lookup makes, in order. */
  datatype Call = OrgLookup | IssuesRequest(org: string, purl: string)

  /** An outcome together with the requests made to reach it. */
  datatype Lookup<R> = Lookup(result: Result<R>, calls: seq<Call>)

  /** GetPackageVulnerabilities: with an empty token it fails before any
      request; otherwise it looks up the organisation and, if that succeeds,
      requests the issues of purl.ToString() for it. `org` is the outcome of
      the organisation lookup and `fetch` the issues request. */
  function GetPackageVulnerabilities<R>(codec: Codec, token: string, p: PackageURL,
                                        org: Result<string>, fetch: (string, string) -> Result<R>): (r: Lookup<R>)
    ensures token == "" <==> r.calls == []
    ensures token == "" ==> r.result == Err(NoTokenMessage)
    ensures token != "" ==> r.calls[0] == OrgLookup && (org.Err? ==> r.result == Err(org.error) && |r.calls| == 1)
    ensures token != "" && org.Ok? ==>
      r == Lookup(fetch(org.value, Key(codec, p)), [OrgLookup, IssuesRequest(org.value, Key(codec, p))])
    ensures r.result.Ok? ==>
      org.Ok? && r.calls == [OrgLookup, IssuesRequest(org.value, Key(codec, p))]
      && r.result == fetch(org.value, Key(codec, p))
  {
    if token == "" then Lookup(Err(NoTokenMessage), [])
    else if org.Err? then Lookup(Err(org.error), [OrgLookup])
    else
      var key := Key(codec, p);
      Lookup(fetch(org.value, key), [OrgLookup, IssuesRequest(org.value, key)])
  }
}
