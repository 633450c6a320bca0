/** The older deps.dev enricher for CycloneDX (lib/deps/enrich.go): only a
    component's first "vcs" reference is consulted, its URL without
    "https://" is looked up, and on success three properties are added:
    open issues, stars, scorecard.

    This file reads a project whose counts and score are plain values (an
    older shape of Project than the one lib/deps/repo.go decodes), so the
    project here has that shape, and GetRepoData is an oracle. */
module DepsEnrichOld {
  import opened Base
  import opened GoStrings
  import opened Cdx
  import Sbom
  import DepsCdx

  /** The project as this file reads it. */
  datatype OldProject = OldProject(openIssuesCount: int, starsCount: int, overallScore: real)

  /** The oracles: GetRepoData, and fmt's "%.2f" rendering of a score. */
  datatype Env = Env(getRepoData: string -> Result<OldProject>, formatScore: real -> string)

  /** enrichProperty: the property goes after the existing ones (a nil
      list becomes a one-element list); nothing else changes. */
  function EnrichProperty(c: Component, name: string, value: string): (r: Component)
    ensures r.properties == Some(Elems(c.properties) + [Property(name, value)])
    ensures r.(properties := c.properties) == c
  {
    c.(properties := Append(c.properties, Property(name, value)))
  }

  function EnrichOpenIssues(c: Component, proj: OldProject): Component {
    EnrichProperty(c, "deps:open_issues_count", Itoa(proj.openIssuesCount))
  }

  function EnrichStars(c: Component, proj: OldProject): Component {
    EnrichProperty(c, "deps:stars_count", Itoa(proj.starsCount))
  }

  function EnrichScorecard(c: Component, proj: OldProject, formatScore: real -> string): Component {
    EnrichProperty(c, "deps:scorecard", formatScore(proj.overallScore))
  }

  /** The three enrichers of EnrichCycloneDXSBOM, in its order. */
  function ApplyAll(c: Component, proj: OldProject, formatScore: real -> string): Component {
    EnrichScorecard(EnrichStars(EnrichOpenIssues(c, proj), proj), proj, formatScore)
  }

  /** The three properties follow the existing ones in the order open
      issues, stars, scorecard, and the counts read back as the counts;
      nothing else changes. */
  lemma ApplyAllOrder(c: Component, proj: OldProject, formatScore: real -> string)
    ensures ApplyAll(c, proj, formatScore).(properties := c.properties) == c
    ensures ApplyAll(c, proj, formatScore).properties == Some(Elems(c.properties) + [
      Property("deps:open_issues_count", Itoa(proj.openIssuesCount)),
      Property("deps:stars_count", Itoa(proj.starsCount)),
      Property("deps:scorecard", formatScore(proj.overallScore))])
    ensures InInt64(proj.starsCount) ==> ParseInt64(Elems(ApplyAll(c, proj, formatScore).properties)[|Elems(c.properties)| + 1].value) == Some(proj.starsCount)
  {
    var ps := Elems(c.properties);
    var p1 := Property("deps:open_issues_count", Itoa(proj.openIssuesCount));
    var p2 := Property("deps:stars_count", Itoa(proj.starsCount));
    var p3 := Property("deps:scorecard", formatScore(proj.overallScore));
    assert ps + [p1] + [p2] + [p3] == ps + [p1, p2, p3];
    if InInt64(proj.starsCount) {
      ParseItoa(proj.starsCount);
    }
  }

  /** The name sent to deps.dev: the URL with every "https://" removed. */
  function RepoName(url: string): string {
    ReplaceAll(url, "https://", "")
  }

  /** An https URL loses its scheme and nothing else, when "https://" does
      not occur again. */
  lemma RepoNameDropsScheme(rest: string)
    requires !Contains(rest, "https://")
    ensures RepoName("https://" + rest) == rest
  {
    ReplaceAllLeading("https://", rest, "");
  }

  /** A URL without "https://" is sent as it is. */
  lemma RepoNameKeepsOthers(url: string)
    requires !Contains(url, "https://")
    ensures RepoName(url) == url
  {
  }

  /** The goroutine body as a specification: with a first "vcs"
      reference whose lookup succeeds, the three enrichers run; otherwise
      the component is as it was. */
  function Enriched(env: Env, c: Component): Component {
    match DepsCdx.FirstVcs(Elems(c.externalReferences))
    case None => c
    case Some(url) =>
      match env.getRepoData(RepoName(url))
      case Ok(proj) => ApplyAll(c, proj, env.formatScore)
      case Err(_) => c
  }

  /** Only the first "vcs" reference counts: when its lookup fails, the
      component is unchanged even if later "vcs" references would
      succeed. */
  lemma FirstVcsOnly(env: Env, c: Component, k: int)
    requires 0 <= k < |Elems(c.externalReferences)|
    requires Elems(c.externalReferences)[k].refType == ERTypeVCS
    requires forall j :: 0 <= j < k ==> Elems(c.externalReferences)[j].refType != ERTypeVCS
    requires env.getRepoData(RepoName(Elems(c.externalReferences)[k].url)).Err?
    ensures Enriched(env, c) == c
  {
    var refs := Elems(c.externalReferences);
    var i :| 0 <= i < |refs| && refs[i].refType == ERTypeVCS && DepsCdx.FirstVcs(refs).value == refs[i].url
      && forall j :: 0 <= j < i ==> refs[j].refType != ERTypeVCS;
    assert i == k;
  }

  /** The goroutine body: the loop over the references stops at the
      first "vcs" one, whether or not its lookup succeeds. */
  method EnrichComponent(env: Env, c: Component) returns (r: Component)
    ensures r == Enriched(env, c)
  {
    r := c;
    if c.externalReferences.Some? {
      var refs := c.externalReferences.value;
      var i := 0;
      while i < |refs|
        invariant 0 <= i <= |refs|
        invariant DepsCdx.FirstVcs(refs[i..]) == DepsCdx.FirstVcs(refs)
      {
        if refs[i].refType == ERTypeVCS {
          var name := ReplaceAll(refs[i].url, "https://", "");
          var proj := env.getRepoData(name);
          if proj.Ok? {
            r := EnrichOpenIssues(r, proj.value);
            r := EnrichStars(r, proj.value);
            r := EnrichScorecard(r, proj.value, env.formatScore);
          }
          break;
        }
        assert refs[i..][1..] == refs[i + 1..];
        i := i + 1;
      }
    }
  }

  /** enrichComponents: slot i of the new list is component i enriched. */
  method EnrichComponents(env: Env, comps: seq<Component>) returns (newComponents: seq<Component>)
    ensures |newComponents| == |comps|
    ensures forall i :: 0 <= i < |comps| ==> newComponents[i] == Enriched(env, comps[i])
  {
    newComponents := comps;
    var i := 0;
    while i < |comps|
      invariant 0 <= i <= |comps| && |newComponents| == |comps|
      invariant forall j :: 0 <= j < i ==> newComponents[j] == Enriched(env, comps[j])
    {
      var component := EnrichComponent(env, comps[i]);
      newComponents := newComponents[i := component];
      i := i + 1;
    }
  }

  /** The BOM EnrichCycloneDXSBOM produces. */
  function EnrichedBom(env: Env, bom: Bom): Bom {
    match bom.components
    case None => bom
    case Some(cs) => bom.(components := Some(seq(|cs|, i requires 0 <= i < |cs| => Enriched(env, cs[i]))))
  }

  /** EnrichCycloneDXSBOM: nil components are left as they are; otherwise
      the components are enriched slot by slot, and nothing else of the
      BOM changes. */
  method EnrichCycloneDXSBOM(env: Env, bom: Bom) returns (r: Bom)
    ensures r == EnrichedBom(env, bom)
    ensures bom.components.None? ==> r == bom
    ensures r.(components := bom.components) == bom
    ensures bom.components.Some? ==> r.components.Some? && |r.components.value| == |bom.components.value|
  {
    if bom.components.None? {
      return bom;
    }
    var newComponents := EnrichComponents(env, bom.components.value);
    assert newComponents == EnrichedBom(env, bom).components.value;
    r := bom.(components := Some(newComponents));
  }

  /** EnrichSBOM: a CycloneDX document gets its BOM enriched; any other
      document is left as it is. */
  method EnrichSBOM(env: Env, doc: Sbom.SBOMDocument) returns (r: Sbom.SBOMDocument)
    ensures doc.bom.CycloneDXBom? ==> r == doc.(bom := Sbom.CycloneDXBom(EnrichedBom(env, doc.bom.cdx)))
    ensures !doc.bom.CycloneDXBom? ==> r == doc
  {
    match doc.bom
    case CycloneDXBom(bom) =>
      var enriched := EnrichCycloneDXSBOM(env, bom);
      r := doc.(bom := Sbom.CycloneDXBom(enriched));
    case _ =>
      r := doc;
  }
}
