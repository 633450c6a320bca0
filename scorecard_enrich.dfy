/** The OpenSSF Scorecard enricher for CycloneDX (lib/scorecard/enrich.go):
    each component's package data is fetched from ecosyste.ms, its
    repository URL is turned into a Scorecard API URL, and when that URL
    answers 200 a reference to it is appended.

    The package-data fetch and the HTTP GET are oracles; the GET answers
    with a status code or a transport error. */
module ScorecardEnrich {
  import opened Base
  import opened GoStrings
  import opened Cdx
  import opened Purl
  import opened EcoTypes

  /** The prefix the scheme of a repository URL is rewritten to. */
  const ScorecardAPIPrefix: string := "https://api.securityscorecards.dev/projects/"
  const ScorecardComment: string := "OpenSSF Scorecard"
  const StatusOK: int := 200

  /** ecosystems.GetPackageData and http.Get (status code or transport
      error), with the purl codec. */
  datatype Env = Env(
    codec: Codec,
    getPackageData: PackageURL -> Result<Response<EcoPackage>>,
    httpGet: string -> Result<int>)

  /** enrichExternalReference: the reference goes after the existing ones
      (a nil list becomes a one-element list); nothing else changes. */
  function EnrichExternalReference(c: Component, url: string, comment: string, refType: string): (r: Component)
    ensures r.externalReferences == Some(Elems(c.externalReferences) + [ExternalReference(url, comment, refType)])
    ensures r.(externalReferences := c.externalReferences) == c
  {
    c.(externalReferences := Append(c.externalReferences, ExternalReference(url, comment, refType)))
  }

  /** The Scorecard API URL of a repository: every "https://" rewritten to
      the API prefix. */
  function ScorecardURL(repoURL: string): string {
    ReplaceAll(repoURL, "https://", ScorecardAPIPrefix)
  }

  /** An https repository URL keeps its host and path behind the API
      prefix, when "https://" does not occur again. */
  lemma ScorecardURLRewritesScheme(rest: string)
    requires !Contains(rest, "https://")
    ensures ScorecardURL("https://" + rest) == ScorecardAPIPrefix + rest
  {
    ReplaceAllLeading("https://", rest, ScorecardAPIPrefix);
  }

  /** A repository URL without "https://" is requested as it is. */
  lemma ScorecardURLKeepsOthers(repoURL: string)
    requires !Contains(repoURL, "https://")
    ensures ScorecardURL(repoURL) == repoURL
  {
  }

  /** The repository URL of a package: the fetch succeeded, the body was
      decoded, and it names a repository. */
  function RepositoryURL(env: Env, p: PackageURL): (r: Option<string>)
    ensures r.Some? <==> (env.getPackageData(p).Ok? && env.getPackageData(p).value.json200.Some?
      && env.getPackageData(p).value.json200.value.repositoryUrl.Some?)
    ensures r.Some? ==> r.value == env.getPackageData(p).value.json200.value.repositoryUrl.value
  {
    match env.getPackageData(p)
    case Err(_) => None
    case Ok(resp) => if resp.json200.Some? then resp.json200.value.repositoryUrl else None
  }

  /** The Scorecard URL to reference: the repository's Scorecard URL, when
      its GET answers 200. */
  function ScorecardRef(env: Env, p: PackageURL): (r: Option<string>)
    ensures r.Some? <==> (RepositoryURL(env, p).Some?
      && env.httpGet(ScorecardURL(RepositoryURL(env, p).value)) == Ok(StatusOK))
    ensures r.Some? ==> r.value == ScorecardURL(RepositoryURL(env, p).value)
  {
    match RepositoryURL(env, p)
    case None => None
    case Some(u) =>
      var url := ScorecardURL(u);
      if env.httpGet(url) == Ok(StatusOK) then Some(url) else None
  }

  /** The goroutine body as a specification. The parse error is dropped:
      a component whose purl does not parse is looked up under the zero
      PackageURL. */
  function Enriched(env: Env, c: Component): Component {
    match ScorecardRef(env, ParseOrZero(env.codec, c.packageURL))
    case None => c
    case Some(url) => EnrichExternalReference(c, url, ScorecardComment, ERTypeOther)
  }

  /** At most one reference is added, after the existing ones, and only
      when the package data names a repository whose Scorecard URL answers
      200; nothing else of the component changes. */
  lemma EnrichedAddsAtMostOne(env: Env, c: Component)
    ensures Enriched(env, c).(externalReferences := c.externalReferences) == c
    ensures var s := ScorecardRef(env, ParseOrZero(env.codec, c.packageURL));
      s.None? ==> Enriched(env, c) == c
    ensures var s := ScorecardRef(env, ParseOrZero(env.codec, c.packageURL));
      s.Some? ==> (Enriched(env, c).externalReferences ==
        Some(Elems(c.externalReferences) + [ExternalReference(s.value, ScorecardComment, ERTypeOther)]))
  {
  }

  /** The goroutine body: fetch, rewrite, GET, and the reference on 200. */
  method EnrichComponent(env: Env, c: Component) returns (r: Component)
    ensures r == Enriched(env, c)
  {
    r := c;
    var purl := ParseOrZero(env.codec, c.packageURL);
    var resp := env.getPackageData(purl);
    if resp.Ok? && resp.value.json200.Some? && resp.value.json200.value.repositoryUrl.Some? {
      var scorecardURL := ReplaceAll(resp.value.json200.value.repositoryUrl.value, "https://", ScorecardAPIPrefix);
      var response := env.httpGet(scorecardURL);
      if response.Ok? && response.value == StatusOK {
        r := EnrichExternalReference(c, scorecardURL, ScorecardComment, ERTypeOther);
      }
    }
  }

  /** The BOM EnrichSBOM produces. */
  function EnrichedBom(env: Env, bom: Bom): Bom {
    match bom.components
    case None => bom
    case Some(cs) => bom.(components := Some(seq(|cs|, i requires 0 <= i < |cs| => Enriched(env, cs[i]))))
  }

  /** EnrichSBOM: nil components are left as they are; otherwise slot i of
      the new list is component i enriched, and nothing else of the BOM
      changes. */
  method EnrichSBOM(env: Env, bom: Bom) returns (r: Bom)
    ensures r == EnrichedBom(env, bom)
    ensures bom.components.None? ==> r == bom
    ensures r.(components := bom.components) == bom
    ensures bom.components.Some? ==> (r.components.Some? && |r.components.value| == |bom.components.value|
      && forall i :: 0 <= i < |bom.components.value| ==> r.components.value[i] == Enriched(env, bom.components.value[i]))
  {
    if bom.components.None? {
      return bom;
    }
    var comps := bom.components.value;
    var newComponents := comps;
    var i := 0;
    while i < |comps|
      invariant 0 <= i <= |comps| && |newComponents| == |comps|
      invariant forall j :: 0 <= j < i ==> newComponents[j] == Enriched(env, comps[j])
    {
      var component := EnrichComponent(env, comps[i]);
      newComponents := newComponents[i := component];
      i := i + 1;
    }
    assert newComponents == EnrichedBom(env, bom).components.value;
    r := bom.(components := Some(newComponents));
  }
}
