/** The parts of the SPDX 2.3 document model (tools-golang) that the
    enrichers read or write. */
module Spdx {

  /** spdx.CategorySecurity, spdx.CategoryOther and spdx.SecurityAdvisory. */
  const CategorySecurity: string := "SECURITY"
  const CategoryOther: string := "OTHER"
  const SecurityAdvisory: string := "advisory"

  datatype ExternalRef = ExternalRef(category: string, refType: string, locator: string, comment: string)

  datatype Package = Package(
    spdxId: string,
    name: string,
    externalRefs: seq<ExternalRef>,
    licenseConcluded: string,
    homePage: string,
    description: string)

  datatype Document = Document(packages: seq<Package>)

  /** Appending one external reference after the existing ones. */
  function AddRef(p: Package, r: ExternalRef): (q: Package)
    ensures q.externalRefs == p.externalRefs + [r]
    ensures q.(externalRefs := p.externalRefs) == p
  {
    p.(externalRefs := p.externalRefs + [r])
  }
}
