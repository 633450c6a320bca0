/** The other ecosyste.ms enricher for SPDX documents
    (lib/ecosystems/spdx2_3.go), the one EnrichSBOM dispatches to. Its
    extractPurl and enrichSPDX_License are the same as extractPurl and
    enrichSPDXLicense of lib/ecosystems/enrich_spdx.go and are taken from
    EcoSpdx. Unlike that file it writes the home page and the description
    without looking at them, so a package whose data lacks either would
    dereference nil: the model requires both to be present for every
    package it enriches. */
module EcoSpdx23 {
  import opened Base
  import opened Spdx
  import opened EcoTypes
  import opened EcoSpdx

  /** enrichSPDX_Homepage: the home page is always written. */
  function EnrichHomepage(pkg: Package, data: EcoPackage): (r: Package)
    requires data.homepage.Some?
    ensures r.(homePage := pkg.homePage) == pkg
    ensures r.homePage == data.homepage.value
  {
    pkg.(homePage := data.homepage.value)
  }

  /** enrichSPDX_Description: the description is always written. */
  function EnrichDescription(pkg: Package, data: EcoPackage): (r: Package)
    requires data.description.Some?
    ensures r.(description := pkg.description) == pkg
    ensures r.description == data.description.value
  {
    pkg.(description := data.description.value)
  }

  /** The data a package is enriched with has a home page and a
      description. */
  predicate FieldsPresent(env: Env, pkg: Package) {
    PackageData(env, pkg).Some? ==>
      PackageData(env, pkg).value.homepage.Some? && PackageData(env, pkg).value.description.Some?
  }

  /** The loop body as a specification: description, licence, home page. */
  function Enriched(env: Env, pkg: Package): Package
    requires FieldsPresent(env, pkg)
  {
    match PackageData(env, pkg)
    case None => pkg
    case Some(data) => EnrichHomepage(EnrichSPDXLicense(EnrichDescription(pkg, data), data), data)
  }

  /** A package without data is unchanged; otherwise the description and
      home page are the data's and the licence follows the licence rule;
      nothing else changes. */
  lemma EnrichedFields(env: Env, pkg: Package)
    requires FieldsPresent(env, pkg)
    ensures PackageData(env, pkg).None? ==> Enriched(env, pkg) == pkg
    ensures Enriched(env, pkg).(description := pkg.description, licenseConcluded := pkg.licenseConcluded,
      homePage := pkg.homePage) == pkg
    ensures PackageData(env, pkg).Some? ==> (
      var data := PackageData(env, pkg).value;
      var r := Enriched(env, pkg);
      r.description == data.description.value
      && r.licenseConcluded == LicenseConcluded(pkg.licenseConcluded, data.normalizedLicenses)
      && r.homePage == data.homepage.value)
  {
  }

  /** The loop body on one package. */
  method EnrichPackage(env: Env, pkg: Package) returns (r: Package)
    requires FieldsPresent(env, pkg)
    ensures r == Enriched(env, pkg)
  {
    r := pkg;
    var purl := ExtractPurl(env.codec, pkg);
    if purl.Err? {
      return;
    }
    var resp := env.getPackageData(purl.value);
    if resp.Err? {
      return;
    }
    var pkgData := resp.value.json200;
    if pkgData.None? {
      return;
    }
    r := EnrichDescription(r, pkgData.value);
    r := EnrichSPDXLicense(r, pkgData.value);
    r := EnrichHomepage(r, pkgData.value);
  }

  /** The document enrichSPDXDoc leaves. */
  function EnrichedDoc(env: Env, doc: Document): (r: Document)
    requires forall i :: 0 <= i < |doc.packages| ==> FieldsPresent(env, doc.packages[i])
    ensures |r.packages| == |doc.packages|
  {
    doc.(packages := seq(|doc.packages|, i requires 0 <= i < |doc.packages| => Enriched(env, doc.packages[i])))
  }

  /** enrichSPDXDoc: every package is enriched in its own slot; the number
      and order of packages do not change. */
  method EnrichSPDXDoc(env: Env, doc: Document) returns (r: Document)
    requires forall i :: 0 <= i < |doc.packages| ==> FieldsPresent(env, doc.packages[i])
    ensures r == EnrichedDoc(env, doc)
    ensures forall i :: 0 <= i < |doc.packages| ==> r.packages[i] == Enriched(env, doc.packages[i])
  {
    var packages := doc.packages;
    var i := 0;
    while i < |doc.packages|
      invariant 0 <= i <= |doc.packages| && |packages| == |doc.packages|
      invariant forall j :: 0 <= j < i ==> packages[j] == Enriched(env, doc.packages[j])
    {
      var pkg := EnrichPackage(env, doc.packages[i]);
      packages := packages[i := pkg];
      i := i + 1;
    }
    r := doc.(packages := packages);
    assert r.packages == EnrichedDoc(env, doc).packages;
  }
}
