/** The parts of the CycloneDX 1.4 document model (cyclonedx-go) that the
    enrichers read or write. Go pointers to slices and structs are Option
    values, so that "nil" and "empty" stay apart as they do in the source. */
module Cdx {
  import opened Base

  /** cdx.ExternalReferenceType values used by the enrichers. */
  const ERTypeWebsite: string := "website"
  const ERTypeDistribution: string := "distribution"
  const ERTypeVCS: string := "vcs"
  const ERTypeDocumentation: string := "documentation"
  const ERTypeOther: string := "other"

  datatype ExternalReference = ExternalReference(url: string, comment: string, refType: string)

  datatype Property = Property(name: string, value: string)

  datatype License = License(id: string, name: string)

  datatype LicenseChoice = LicenseChoice(license: Option<License>, expression: string)

  datatype OrganizationalEntity = OrganizationalEntity(name: string, url: Option<seq<string>>)

  datatype Component = Component(
    bomRef: string,
    name: string,
    packageURL: string,
    description: string,
    author: string,
    licenses: Option<seq<LicenseChoice>>,
    supplier: Option<OrganizationalEntity>,
    externalReferences: Option<seq<ExternalReference>>,
    properties: Option<seq<Property>>,
    components: ComponentList)

  /** A component's nested `components`: a nil pointer, or a list. (A
      dedicated type rather than Option, so that recursion over the tree
      terminates by structure.) */
  datatype ComponentList = NilList | List(items: seq<Component>)

  datatype Severity = SeverityCritical | SeverityHigh | SeverityMedium | SeverityLow | SeverityUnknown

  datatype ScoringMethod = ScoringMethodCVSSv3 | ScoringMethodCVSSv31 | ScoringMethodCVSSv4 | ScoringMethodOther

  datatype Source = Source(name: string, url: string)

  datatype VulnerabilityReference = VulnerabilityReference(id: string, source: Source)

  datatype Advisory = Advisory(title: string, url: string)

  datatype Rating = Rating(source: Source, score: real, severity: Severity, scoringMethod: ScoringMethod, vector: string)

  datatype Vulnerability = Vulnerability(
    bomRef: string,
    id: string,
    description: string,
    detail: string,
    created: string,
    updated: string,
    cwes: Option<seq<int>>,
    references: Option<seq<VulnerabilityReference>>,
    advisories: Option<seq<Advisory>>,
    ratings: Option<seq<Rating>>)

  datatype Metadata = Metadata(component: Option<Component>)

  datatype Bom = Bom(
    metadata: Option<Metadata>,
    components: Option<seq<Component>>,
    vulnerabilities: Option<seq<Vulnerability>>)

  /** The nested components of c; nil reads as none. */
  function Children(c: Component): seq<Component> {
    match c.components
    case NilList => []
    case List(cs) => cs
  }

  /** The component without its subtree: the fields an enricher may change. */
  function Own(c: Component): Component {
    c.(components := NilList)
  }

  /** No pointer field of the component is set. A cdx.Component used as a
      Go map key compares its pointer fields by address, so only a
      component without pointers compares by value alone. */
  predicate PointersNil(c: Component) {
    c.licenses.None? && c.supplier.None? && c.externalReferences.None?
    && c.properties.None? && c.components.NilList?
  }

  /** A vulnerability with only its BOM reference set. */
  function EmptyVulnerability(bomRef: string): Vulnerability {
    Vulnerability(bomRef, "", "", "", "", "", None, None, None, None)
  }
}
