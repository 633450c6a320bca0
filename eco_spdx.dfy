/** The ecosyste.ms enricher for SPDX documents (lib/ecosystems/enrich_spdx.go):
    each package whose purl is found and whose package data was fetched
    gets its description, concluded licence and home page from that data,
    in that order. Packages are updated in place one after another; the
    model fills slot i of the package list with package i enriched.

    The package-data fetch and purl parsing are oracles. */
module EcoSpdx {
  import opened Base
  import opened GoStrings
  import opened Spdx
  import opened Purl
  import opened EcoTypes
  import UtilsSpdx

  const NoPurlError: string := "no purl found on SPDX package"

  /** packageurl.FromString and GetPackageData. */
  datatype Env = Env(codec: Codec, getPackageData: PackageURL -> Result<Response<EcoPackage>>)

  // ----- extractPurl -----

  /** What extractPurl returns: the first "purl" reference decides; its
      locator is parsed (a parse error is returned as it is, later
      references are not tried), and no such reference is an error. */
  function ExtractedPurl(codec: Codec, pkg: Package): (r: Result<PackageURL>)
    ensures UtilsSpdx.FirstPurlLocator(pkg.externalRefs).None? ==> r == Err(NoPurlError)
    ensures UtilsSpdx.FirstPurlLocator(pkg.externalRefs).Some? ==>
      r == codec.parse(UtilsSpdx.FirstPurlLocator(pkg.externalRefs).value)
  {
    match UtilsSpdx.FirstPurlLocator(pkg.externalRefs)
    case None => Err(NoPurlError)
    case Some(locator) => codec.parse(locator)
  }

  /** The first "purl" reference decides, even when its locator does not
      parse and a later one would. */
  lemma FirstPurlRefDecides(codec: Codec, pkg: Package, k: int)
    requires 0 <= k < |pkg.externalRefs| && pkg.externalRefs[k].refType == "purl"
    requires forall j :: 0 <= j < k ==> pkg.externalRefs[j].refType != "purl"
    ensures ExtractedPurl(codec, pkg) == codec.parse(pkg.externalRefs[k].locator)
  {
    var refs := pkg.externalRefs;
    UtilsSpdx.FirstPurlLocatorIsFirst(refs);
    var i :| 0 <= i < |refs| && refs[i].refType == "purl" && UtilsSpdx.FirstPurlLocator(refs).value == refs[i].locator
      && forall j :: 0 <= j < i ==> refs[j].refType != "purl";
    assert i == k;
  }

  /** extractPurl: the loop skips references of other types and returns at
      the first "purl" one. */
  method ExtractPurl(codec: Codec, pkg: Package) returns (r: Result<PackageURL>)
    ensures r == ExtractedPurl(codec, pkg)
  {
    var refs := pkg.externalRefs;
    var i := 0;
    while i < |refs|
      invariant 0 <= i <= |refs|
      invariant UtilsSpdx.FirstPurlLocator(refs[i..]) == UtilsSpdx.FirstPurlLocator(refs)
    {
      if refs[i].refType != "purl" {
        assert refs[i..][1..] == refs[i + 1..];
        i := i + 1;
        continue;
      }
      return codec.parse(refs[i].locator);
    }
    return Err(NoPurlError);
  }

  // ----- the field enrichers -----

  /** The concluded licence for a list of normalised licences: none leaves
      it as it was, one is taken as it is, several are joined with " OR "
      in parentheses. */
  function LicenseConcluded(current: string, licenses: seq<string>): (r: string)
    ensures |licenses| == 0 ==> r == current
    ensures |licenses| == 1 ==> r == licenses[0]
    ensures |licenses| > 1 ==> r == "(" + Join(licenses, " OR ") + ")"
  {
    if |licenses| == 1 then licenses[0]
    else if |licenses| > 1 then "(" + Join(licenses, " OR ") + ")"
    else current
  }

  /** Several licences give a parenthesised expression in which every one
      of them occurs. */
  lemma LicenseConcludedMentionsAll(current: string, licenses: seq<string>, i: int)
    requires |licenses| > 1 && 0 <= i < |licenses|
    ensures var r := LicenseConcluded(current, licenses);
      |r| >= 2 && r[0] == '(' && r[|r| - 1] == ')' && Contains(r, licenses[i])
  {
    var j := Join(licenses, " OR ");
    JoinContainsParts(licenses, " OR ", i);
    var k := Index(j, licenses[i]);
    OccursAtWithin("(", j, ")", licenses[i], k);
  }

  /** enrichSPDXLicense. */
  function EnrichSPDXLicense(pkg: Package, data: EcoPackage): (r: Package)
    ensures r.(licenseConcluded := pkg.licenseConcluded) == pkg
    ensures r.licenseConcluded == LicenseConcluded(pkg.licenseConcluded, data.normalizedLicenses)
  {
    pkg.(licenseConcluded := LicenseConcluded(pkg.licenseConcluded, data.normalizedLicenses))
  }

  /** enrichSPDXHomepage: only a present home page is written. */
  function EnrichSPDXHomepage(pkg: Package, data: EcoPackage): (r: Package)
    ensures r.(homePage := pkg.homePage) == pkg
    ensures r.homePage == data.homepage.GetOr(pkg.homePage)
  {
    if data.homepage.None? then pkg else pkg.(homePage := data.homepage.value)
  }

  /** enrichSPDXDescription: only a present description is written. */
  function EnrichSPDXDescription(pkg: Package, data: EcoPackage): (r: Package)
    ensures r.(description := pkg.description) == pkg
    ensures r.description == data.description.GetOr(pkg.description)
  {
    if data.description.None? then pkg else pkg.(description := data.description.value)
  }

  // ----- the package loop -----

  /** The package data a package is enriched with: its purl is found and
      parses, the fetch succeeded and the body was decoded. */
  function PackageData(env: Env, pkg: Package): Option<EcoPackage> {
    match ExtractedPurl(env.codec, pkg)
    case Err(_) => None
    case Ok(p) =>
      match env.getPackageData(p)
      case Err(_) => None
      case Ok(resp) => resp.json200
  }

  /** The loop body as a specification: description, licence, home page. */
  function Enriched(env: Env, pkg: Package): Package {
    match PackageData(env, pkg)
    case None => pkg
    case Some(data) => EnrichSPDXHomepage(EnrichSPDXLicense(EnrichSPDXDescription(pkg, data), data), data)
  }

  /** Only the description, the concluded licence and the home page are
      written, each from its own field of the data; a package without
      data is unchanged. */
  lemma EnrichedFields(env: Env, pkg: Package)
    ensures PackageData(env, pkg).None? ==> Enriched(env, pkg) == pkg
    ensures Enriched(env, pkg).(description := pkg.description, licenseConcluded := pkg.licenseConcluded,
      homePage := pkg.homePage) == pkg
    ensures PackageData(env, pkg).Some? ==> (
      var data := PackageData(env, pkg).value;
      var r := Enriched(env, pkg);
      r.description == data.description.GetOr(pkg.description)
      && r.licenseConcluded == LicenseConcluded(pkg.licenseConcluded, data.normalizedLicenses)
      && r.homePage == data.homepage.GetOr(pkg.homePage))
  {
  }

  /** The loop body on one package. */
  method EnrichPackage(env: Env, pkg: Package) returns (r: Package)
    ensures r == Enriched(env, pkg)
  {
    r := pkg;
    var purl := ExtractPurl(env.codec, pkg);
    if purl.Err? {
      return;
    }
    var resp := env.getPackageData(purl.value);
    if resp.Err? {
      return;
    }
    var pkgData := resp.value.json200;
    if pkgData.None? {
      return;
    }
    r := EnrichSPDXDescription(r, pkgData.value);
    r := EnrichSPDXLicense(r, pkgData.value);
    r := EnrichSPDXHomepage(r, pkgData.value);
  }

  /** enrichSPDX: every package is enriched in its own slot; the number and
      order of packages do not change. */
  method EnrichSPDX(env: Env, doc: Document) returns (r: Document)
    ensures |r.packages| == |doc.packages|
    ensures forall i :: 0 <= i < |doc.packages| ==> r.packages[i] == Enriched(env, doc.packages[i])
  {
    var packages := doc.packages;
    var i := 0;
    while i < |doc.packages|
      invariant 0 <= i <= |doc.packages| && |packages| == |doc.packages|
      invariant forall j :: 0 <= j < i ==> packages[j] == Enriched(env, doc.packages[j])
    {
      var pkg := EnrichPackage(env, doc.packages[i]);
      packages := packages[i := pkg];
      i := i + 1;
    }
    r := doc.(packages := packages);
  }
}
