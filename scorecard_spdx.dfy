/** The OpenSSF Scorecard enricher for SPDX documents
    (lib/scorecard/enrich_spdx.go): each package whose purl is found and
    whose package data names a repository gets an "openssfscorecard"
    reference when the repository's Scorecard URL answers 200. Packages are
    updated in place, each by its own goroutine; the model visits them in
    order. */
module ScorecardSpdx {
  import opened Base
  import opened GoStrings
  import opened Spdx
  import opened Purl
  import opened UtilsSpdx
  import opened ScorecardEnrich

  const ScorecardRefType: string := "openssfscorecard"

  /** The reference the goroutine appends (the comment is left empty). */
  function ScorecardExternalRef(url: string): ExternalRef {
    ExternalRef(CategoryOther, ScorecardRefType, url, "")
  }

  /** The goroutine body as a specification: no purl, a failed fetch, no
      body, no repository URL, a transport error or a status other than
      200 all leave the package as it was. */
  function Enriched(env: Env, pkg: Package): Package {
    match PurlOf(env.codec, pkg)
    case Err(_) => pkg
    case Ok(p) =>
      match ScorecardRef(env, p)
      case None => pkg
      case Some(url) => AddRef(pkg, ScorecardExternalRef(url))
  }

  /** Exactly one reference is appended after the existing ones when the
      purl is found and the Scorecard URL answers 200, none otherwise;
      nothing else of the package changes. */
  lemma EnrichedAppendsOne(env: Env, pkg: Package)
    ensures Enriched(env, pkg).(externalRefs := pkg.externalRefs) == pkg
    ensures PurlOf(env.codec, pkg).Err? ==> Enriched(env, pkg) == pkg
    ensures PurlOf(env.codec, pkg).Ok? ==>
      Enriched(env, pkg).externalRefs == pkg.externalRefs +
        (match ScorecardRef(env, PurlOf(env.codec, pkg).value)
         case None => []
         case Some(url) => [ScorecardExternalRef(url)])
  {
  }

  /** A package with no purl reference is left as it is, whatever the
      services answer. */
  lemma NoPurlUntouched(env: Env, pkg: Package)
    requires FirstPurlLocator(pkg.externalRefs).None?
    ensures Enriched(env, pkg) == pkg
  {
  }

  /** The goroutine body on one package. */
  method EnrichPackage(env: Env, pkg: Package) returns (r: Package)
    ensures r == Enriched(env, pkg)
  {
    r := pkg;
    var purl := GetPurlFromSPDXPackage(env.codec, pkg);
    if purl.Err? {
      return;
    }
    var resp := env.getPackageData(purl.value);
    if resp.Err? || resp.value.json200.None? || resp.value.json200.value.repositoryUrl.None? {
      return;
    }
    var scURL := ReplaceAll(resp.value.json200.value.repositoryUrl.value, "https://", ScorecardAPIPrefix);
    var response := env.httpGet(scURL);
    if response.Err? || response.value != StatusOK {
      return;
    }
    r := pkg.(externalRefs := pkg.externalRefs + [ScorecardExternalRef(scURL)]);
  }

  /** enrichSPDX: every package is enriched in its own slot; the number and
      order of packages do not change. */
  method EnrichSPDX(env: Env, doc: Document) returns (r: Document)
    ensures |r.packages| == |doc.packages|
    ensures forall i :: 0 <= i < |doc.packages| ==> r.packages[i] == Enriched(env, doc.packages[i])
  {
    var packages := doc.packages;
    var i := 0;
    while i < |doc.packages|
      invariant 0 <= i <= |doc.packages| && |packages| == |doc.packages|
      invariant forall j :: 0 <= j < i ==> packages[j] == Enriched(env, doc.packages[j])
    {
      var pkg := EnrichPackage(env, doc.packages[i]);
      packages := packages[i := pkg];
      i := i + 1;
    }
    r := doc.(packages := packages);
  }
}
