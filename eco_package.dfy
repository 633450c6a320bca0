/** The request an ecosyste.ms lookup makes (lib/ecosystems/package.go): the
    User-Agent header, and the registry and package name derived from a
    package URL. */
module EcoPackage {
  import opened GoStrings
  import opened Purl

  /** The build-time version; "dev" unless the build sets it. */
  const DefaultVersion: string := "dev"

  /** getUserAgent: the version in parentheses after "parlay". */
  function UserAgent(version: string): (r: string)
    ensures HasPrefix(r, "parlay (") && HasSuffix(r, ")")
    ensures |r| == |version| + 9 && r[8..|r| - 1] == version
  {
    "parlay (" + version + ")"
  }

  /** The purl types ecosyste.ms registries are known for, and their registries. */
  const Registries: map<string, string> := map[
    "apk" := "alpine-edge",
    "cargo" := "crates.io",
    "cocoapods" := "cocoapod.org",
    "composer" := "packagist.org",
    "docker" := "hub.docker.com",
    "gem" := "rubygems.org",
    "golang" := "proxy.golang.org",
    "hex" := "hex.pm",
    "maven" := "repo1.maven.org",
    "npm" := "npmjs.org",
    "nuget" := "nuget.org",
    "pypi" := "pypi.org",
    "swift" := "swiftpackageindex.com"]

  /** purlToEcosystemsRegistry: the table lookup, "" for any other type. */
  function PurlToEcosystemsRegistry(p: PackageURL): (r: string)
    ensures r != "" <==> p.typ in Registries
  {
    if p.typ in Registries then Registries[p.typ] else ""
  }

  /** npm, maven and cocoapods map as listed, and a type outside the table
      gets no registry. */
  lemma RegistryTable(p: PackageURL)
    ensures p.typ == "npm" ==> PurlToEcosystemsRegistry(p) == "npmjs.org"
    ensures p.typ == "maven" ==> PurlToEcosystemsRegistry(p) == "repo1.maven.org"
    ensures p.typ == "cocoapods" ==> PurlToEcosystemsRegistry(p) == "cocoapod.org"
    ensures p.typ == "bower" ==> PurlToEcosystemsRegistry(p) == ""
  {
  }

  /** purlToEcosystemsName */
  function PurlToEcosystemsName(p: PackageURL): (r: string)
    ensures HasSuffix(r, p.name)
    ensures p.namespace == "" || p.typ == "apk" ==> r == p.name
    ensures p.namespace != "" && p.typ == "maven" ==> r == p.namespace + ":" + p.name
    ensures p.namespace != "" && p.typ != "maven" && p.typ != "apk" ==> r == p.namespace + "/" + p.name
  {
    if p.namespace == "" then p.name
    else if p.typ == "maven" then p.namespace + ":" + p.name
    else if p.typ == "apk" then p.name
    else p.namespace + "/" + p.name
  }

  /** For a type other than apk, the name (with its separator) determines the
      namespace: the name sent to the registry is the namespace, a separator and
      the purl name, so two purls of one type that share a name but differ in
      namespace are sent under different names. */
  lemma NameKeepsNamespace(p: PackageURL, q: PackageURL)
    requires p.typ == q.typ && p.typ != "apk" && p.name == q.name
    requires p.namespace != q.namespace
    ensures PurlToEcosystemsName(p) != PurlToEcosystemsName(q)
  {
    var rp := PurlToEcosystemsName(p);
    var rq := PurlToEcosystemsName(q);
    if p.namespace == "" || q.namespace == "" {
      assert |rp| != |rq|;
    } else {
      DistinctHeads(p.namespace, q.namespace, if p.typ == "maven" then ":" else "/", p.name);
    }
  }

  /** Different heads on one separator and tail give different strings. */
  lemma DistinctHeads(a: string, b: string, sep: string, t: string)
    requires a != b
    ensures a + sep + t != b + sep + t
  {
    if |a| == |b| {
      var k :| 0 <= k < |a| && a[k] != b[k];
      assert (a + sep + t)[k] == a[k] && (b + sep + t)[k] == b[k];
    }
  }

  /** "pkg:apk/alpine/lf@30-r3": the apk namespace is dropped. */
  lemma ApkExample()
    ensures PurlToEcosystemsName(PackageURL("apk", "alpine", "lf", "30-r3", [], "")) == "lf"
    ensures PurlToEcosystemsRegistry(PackageURL("apk", "alpine", "lf", "30-r3", [], "")) == "alpine-edge"
  {
  }
}
