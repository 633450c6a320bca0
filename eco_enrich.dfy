/** The by-value ecosyste.ms enricher for CycloneDX
    (lib/ecosystems/enrich.go) and the EnrichSBOM dispatch: each top-level
    component whose package data was fetched is passed through thirteen
    enrichers in a fixed order, each taking a component and returning the
    new one.

    enrichTopics asserts that every topic is a string, so a non-string
    topic would panic: the model requires the topics of every package data
    it enriches with to be strings. */
module EcoEnrich {
  import opened Base
  import opened Cdx
  import opened Purl
  import opened EcoTypes
  import Sbom
  import EcoSpdx
  import EcoSpdx23

  const TopicProperty: string := "ecosystems:topic"
  const FirstReleaseProperty: string := "ecosystems:first_release_published_at"
  const LatestReleaseProperty: string := "ecosystems:latest_release_published_at"
  const ArchivedProperty: string := "ecosystems:repository_archived"
  const LocationProperty: string := "ecosystems:owner_location"
  const CannotEnrichPrefix: string := "cannot enrich BOM of type "

  /** packageurl.FromString, GetPackageData and the RFC 3339 rendering of a
      time in UTC. */
  datatype Env = Env(
    codec: Codec,
    getPackageData: PackageURL -> Result<Response<EcoPackage>>,
    rfc3339: Time -> string)

  /** The thirteen enrichers. */
  datatype Enricher =
    | Description | License | Homepage | RegistryURL | RepositoryURL | DocumentationURL
    | FirstReleasePublishedAt | LatestReleasePublishedAt | RepoArchived | Location | Topics | Author | Supplier

  /** enrichFuncs, in its order. */
  const EnrichFuncs: seq<Enricher> := [Description, Enricher.License, Homepage, RegistryURL, RepositoryURL,
    DocumentationURL, FirstReleasePublishedAt, LatestReleasePublishedAt, RepoArchived, Location, Topics, Author, Supplier]

  // ----- the enrichers -----

  /** enrichDescription: only a present description is written. */
  function EnrichDescription(c: Component, d: EcoPackage): (r: Component)
    ensures r.(description := c.description) == c
    ensures r.description == d.description.GetOr(c.description)
  {
    if d.description.Some? then c.(description := d.description.value) else c
  }

  /** enrichLicense: the first normalised licence becomes the only licence
      choice, as an expression; no licence leaves the component as it is. */
  function EnrichLicense(c: Component, d: EcoPackage): (r: Component)
    ensures r.(licenses := c.licenses) == c
    ensures |d.normalizedLicenses| == 0 ==> r == c
    ensures |d.normalizedLicenses| > 0 ==> r.licenses == Some([LicenseChoice(None, d.normalizedLicenses[0])])
  {
    if |d.normalizedLicenses| > 0 then c.(licenses := Some([LicenseChoice(None, d.normalizedLicenses[0])])) else c
  }

  /** The reference a URL field gives, if it is present. */
  function UrlRef(url: Option<string>, refType: string): seq<ExternalReference> {
    if url.Some? then [ExternalReference(url.value, "", refType)] else []
  }

  /** enrichExternalReference: a nil URL gives the component back as it
      was; otherwise the reference goes after the existing ones (a nil list
      becomes a one-element list). */
  function EnrichExternalReference(c: Component, url: Option<string>, refType: string): (r: Component)
    ensures r.(externalReferences := c.externalReferences) == c
    ensures url.None? ==> r == c
    ensures url.Some? ==> r.externalReferences == Some(Elems(c.externalReferences) + [ExternalReference(url.value, "", refType)])
  {
    if url.None? then c else c.(externalReferences := Append(c.externalReferences, ExternalReference(url.value, "", refType)))
  }

  /** enrichProperty: the property goes after the existing ones (a nil list
      becomes a one-element list); nothing else changes. */
  function EnrichProperty(c: Component, name: string, value: string): (r: Component)
    ensures r.properties == Some(Elems(c.properties) + [Property(name, value)])
    ensures r.(properties := c.properties) == c
  {
    c.(properties := Append(c.properties, Property(name, value)))
  }

  /** The property a release timestamp gives, if it is present. */
  function TimeProp(t: Option<Time>, name: string, rfc3339: Time -> string): seq<Property> {
    if t.Some? then [Property(name, rfc3339(t.value))] else []
  }

  /** enrichFirstReleasePublishedAt and enrichLatestReleasePublishedAt. */
  function EnrichTimestamp(c: Component, t: Option<Time>, name: string, rfc3339: Time -> string): Component {
    if t.None? then c else EnrichProperty(c, name, rfc3339(t.value))
  }

  /** The repository metadata says "archived": true. */
  predicate Archived(d: EcoPackage) {
    d.repoMetadata.Some? && "archived" in d.repoMetadata.value && d.repoMetadata.value["archived"] == JBool(true)
  }

  /** enrichRepoArchived. */
  function EnrichRepoArchived(c: Component, d: EcoPackage): Component {
    if Archived(d) then EnrichProperty(c, ArchivedProperty, "true") else c
  }

  /** A string field of the repository owner's record, if there is one. */
  function OwnerField(d: EcoPackage, field: string): Option<string> {
    if d.repoMetadata.Some? then OwnerString(d.repoMetadata.value, field) else None
  }

  /** enrichLocation. */
  function EnrichLocation(c: Component, d: EcoPackage): Component {
    match OwnerField(d, "location")
    case None => c
    case Some(location) => EnrichProperty(c, LocationProperty, location)
  }

  /** enrichAuthor: the owner's name, when it is a string. */
  function EnrichAuthor(c: Component, d: EcoPackage): (r: Component)
    ensures r.(author := c.author) == c
    ensures r.author == OwnerField(d, "name").GetOr(c.author)
  {
    match OwnerField(d, "name")
    case None => c
    case Some(name) => c.(author := name)
  }

  /** The supplier enrichSupplier builds: the owner's name, and the
      website, unsplit, as the only URL when it is a string. */
  function SupplierOf(d: EcoPackage): Option<OrganizationalEntity> {
    match OwnerField(d, "name")
    case None => None
    case Some(name) =>
      Some(OrganizationalEntity(name, match OwnerField(d, "website") case None => None case Some(w) => Some([w])))
  }

  /** enrichSupplier. */
  function EnrichSupplier(c: Component, d: EcoPackage): (r: Component)
    ensures r.(supplier := c.supplier) == c
    ensures SupplierOf(d).None? ==> r == c
    ensures SupplierOf(d).Some? ==> r.supplier == SupplierOf(d)
  {
    if SupplierOf(d).Some? then c.(supplier := SupplierOf(d)) else c
  }

  // ----- topics -----

  /** The topics list of the repository metadata, when it is a list. */
  function TopicItems(d: EcoPackage): seq<Json> {
    if d.repoMetadata.Some? && "topics" in d.repoMetadata.value && d.repoMetadata.value["topics"].JArray?
    then d.repoMetadata.value["topics"].items else []
  }

  /** Every topic is a string, as enrichTopics asserts. */
  predicate TopicsAreStrings(d: EcoPackage) {
    forall i :: 0 <= i < |TopicItems(d)| ==> TopicItems(d)[i].JString?
  }

  /** One "ecosystems:topic" property per topic, in order. */
  function TopicProperties(ts: seq<Json>): (ps: seq<Property>)
    requires forall i :: 0 <= i < |ts| ==> ts[i].JString?
  {
    seq(|ts|, i requires 0 <= i < |ts| && ts[i].JString? => Property(TopicProperty, ts[i].s))
  }

  /** What enrichTopics returns. */
  function EnrichedTopics(c: Component, d: EcoPackage): Component
    requires TopicsAreStrings(d)
  {
    c.(properties := AppendAll(c.properties, TopicProperties(TopicItems(d))))
  }

  /** The topics follow the existing properties, one per topic and in the
      topics' order; nothing else changes, and no topics leave the
      component as it is. */
  lemma TopicsInOrder(c: Component, d: EcoPackage)
    requires TopicsAreStrings(d)
    ensures EnrichedTopics(c, d).(properties := c.properties) == c
    ensures |TopicItems(d)| == 0 ==> EnrichedTopics(c, d) == c
    ensures var ps := Elems(EnrichedTopics(c, d).properties);
      |ps| == |Elems(c.properties)| + |TopicItems(d)| && ps[..|Elems(c.properties)|] == Elems(c.properties)
      && forall i :: 0 <= i < |TopicItems(d)| ==> ps[|Elems(c.properties)| + i] == Property(TopicProperty, TopicItems(d)[i].s)
  {
    var ps := Elems(EnrichedTopics(c, d).properties);
    var ts := TopicProperties(TopicItems(d));
    assert ps == Elems(c.properties) + ts;
  }

  /** enrichTopics: the loop over the topics reassigns the component. */
  method EnrichTopics(c: Component, d: EcoPackage) returns (r: Component)
    requires TopicsAreStrings(d)
    ensures r == EnrichedTopics(c, d)
  {
    r := c;
    if d.repoMetadata.Some? {
      var meta := d.repoMetadata.value;
      if "topics" in meta && meta["topics"].JArray? {
        var topics := meta["topics"].items;
        var i := 0;
        while i < |topics|
          invariant 0 <= i <= |topics| && topics == TopicItems(d)
          invariant r == c.(properties := AppendAll(c.properties, TopicProperties(topics[..i])))
        {
          assert TopicProperties(topics[..i + 1]) == TopicProperties(topics[..i]) + [Property(TopicProperty, topics[i].s)];
          AppendAllStep(c.properties, TopicProperties(topics[..i]), Property(TopicProperty, topics[i].s));
          r := EnrichProperty(r, TopicProperty, topics[i].s);
          i := i + 1;
        }
        assert topics[..i] == topics;
      }
    }
  }

  // ----- the enricher list -----

  /** One enricher applied to a component. */
  function Apply(f: Enricher, c: Component, d: EcoPackage, rfc3339: Time -> string): Component
    requires TopicsAreStrings(d)
  {
    match f
    case Description => EnrichDescription(c, d)
    case License => EnrichLicense(c, d)
    case Homepage => EnrichExternalReference(c, d.homepage, ERTypeWebsite)
    case RegistryURL => EnrichExternalReference(c, d.registryUrl, ERTypeDistribution)
    case RepositoryURL => EnrichExternalReference(c, d.repositoryUrl, ERTypeVCS)
    case DocumentationURL => EnrichExternalReference(c, d.documentationUrl, ERTypeDocumentation)
    case FirstReleasePublishedAt => EnrichTimestamp(c, d.firstReleasePublishedAt, FirstReleaseProperty, rfc3339)
    case LatestReleasePublishedAt => EnrichTimestamp(c, d.latestReleasePublishedAt, LatestReleaseProperty, rfc3339)
    case RepoArchived => EnrichRepoArchived(c, d)
    case Location => EnrichLocation(c, d)
    case Topics => EnrichedTopics(c, d)
    case Author => EnrichAuthor(c, d)
    case Supplier => EnrichSupplier(c, d)
  }

  /** The references an enricher adds. */
  function RefsAdded(f: Enricher, d: EcoPackage): seq<ExternalReference> {
    match f
    case Homepage => UrlRef(d.homepage, ERTypeWebsite)
    case RegistryURL => UrlRef(d.registryUrl, ERTypeDistribution)
    case RepositoryURL => UrlRef(d.repositoryUrl, ERTypeVCS)
    case DocumentationURL => UrlRef(d.documentationUrl, ERTypeDocumentation)
    case _ => []
  }

  /** The properties an enricher adds. */
  function PropsAdded(f: Enricher, d: EcoPackage, rfc3339: Time -> string): seq<Property>
    requires TopicsAreStrings(d)
  {
    match f
    case FirstReleasePublishedAt => TimeProp(d.firstReleasePublishedAt, FirstReleaseProperty, rfc3339)
    case LatestReleasePublishedAt => TimeProp(d.latestReleasePublishedAt, LatestReleaseProperty, rfc3339)
    case RepoArchived => if Archived(d) then [Property(ArchivedProperty, "true")] else []
    case Location => if OwnerField(d, "location").Some? then [Property(LocationProperty, OwnerField(d, "location").value)] else []
    case Topics => TopicProperties(TopicItems(d))
    case _ => []
  }

  /** The component fields an enricher may set outright. */
  function Fields(c: Component): (string, Option<seq<LicenseChoice>>, string, Option<OrganizationalEntity>) {
    (c.description, c.licenses, c.author, c.supplier)
  }

  /** Each enricher appends its references and properties and sets at
      most its own field; nothing else changes. */
  lemma ApplyEffect(f: Enricher, c: Component, d: EcoPackage, rfc3339: Time -> string)
    requires TopicsAreStrings(d)
    ensures var r := Apply(f, c, d, rfc3339);
      r.externalReferences == AppendAll(c.externalReferences, RefsAdded(f, d))
      && r.properties == AppendAll(c.properties, PropsAdded(f, d, rfc3339))
      && r.(description := c.description, licenses := c.licenses, author := c.author, supplier := c.supplier,
            externalReferences := c.externalReferences, properties := c.properties) == c
      && (f != Description ==> r.description == c.description)
      && (f != Enricher.License ==> r.licenses == c.licenses)
      && (f != Author ==> r.author == c.author)
      && (f != Supplier ==> r.supplier == c.supplier)
  {
  }

  /** The references a list of enrichers adds, in list order. */
  function RefsAll(fs: seq<Enricher>, d: EcoPackage): seq<ExternalReference>
    decreases |fs|
  {
    if |fs| == 0 then [] else RefsAll(fs[..|fs| - 1], d) + RefsAdded(fs[|fs| - 1], d)
  }

  /** The properties a list of enrichers adds, in list order. */
  function PropsAll(fs: seq<Enricher>, d: EcoPackage, rfc3339: Time -> string): seq<Property>
    requires TopicsAreStrings(d)
    decreases |fs|
  {
    if |fs| == 0 then [] else PropsAll(fs[..|fs| - 1], d, rfc3339) + PropsAdded(fs[|fs| - 1], d, rfc3339)
  }

  /** The enrichers applied one after another. */
  function ApplyAll(fs: seq<Enricher>, c: Component, d: EcoPackage, rfc3339: Time -> string): Component
    requires TopicsAreStrings(d)
    decreases |fs|
  {
    if |fs| == 0 then c else Apply(fs[|fs| - 1], ApplyAll(fs[..|fs| - 1], c, d, rfc3339), d, rfc3339)
  }

  /** Running a list of enrichers appends their references and properties
      in list order, sets a field only if the list holds its enricher, and
      changes nothing else. */
  lemma {:induction false} ApplyAllEffect(fs: seq<Enricher>, c: Component, d: EcoPackage, rfc3339: Time -> string)
    requires TopicsAreStrings(d)
    ensures var r := ApplyAll(fs, c, d, rfc3339);
      r.externalReferences == AppendAll(c.externalReferences, RefsAll(fs, d))
      && r.properties == AppendAll(c.properties, PropsAll(fs, d, rfc3339))
      && r.(description := c.description, licenses := c.licenses, author := c.author, supplier := c.supplier,
            externalReferences := c.externalReferences, properties := c.properties) == c
      && (Description !in fs ==> r.description == c.description)
      && (Enricher.License !in fs ==> r.licenses == c.licenses)
      && (Author !in fs ==> r.author == c.author)
      && (Supplier !in fs ==> r.supplier == c.supplier)
    decreases |fs|
  {
    if |fs| > 0 {
      var pre, f := fs[..|fs| - 1], fs[|fs| - 1];
      assert forall g :: g in pre ==> g in fs;
      ApplyAllEffect(pre, c, d, rfc3339);
      var prev := ApplyAll(pre, c, d, rfc3339);
      ApplyEffect(f, prev, d, rfc3339);
      AppendAllTwice(c.externalReferences, RefsAll(pre, d), RefsAdded(f, d));
      AppendAllTwice(c.properties, PropsAll(pre, d, rfc3339), PropsAdded(f, d, rfc3339));
    }
  }

  /** Running a list in two parts is running it whole. */
  lemma {:induction false} ApplyAllConcat(a: seq<Enricher>, b: seq<Enricher>, c: Component, d: EcoPackage, rfc3339: Time -> string)
    requires TopicsAreStrings(d)
    ensures ApplyAll(a + b, c, d, rfc3339) == ApplyAll(b, ApplyAll(a, c, d, rfc3339), d, rfc3339)
    decreases |b|
  {
    if |b| == 0 {
      assert a + b == a;
    } else {
      var pre := b[..|b| - 1];
      ApplyAllConcat(a, pre, c, d, rfc3339);
      assert (a + b)[..|a + b| - 1] == a + pre;
    }
  }

  /** The references of two lists run one after the other. */
  lemma {:induction false} RefsAllConcat(a: seq<Enricher>, b: seq<Enricher>, d: EcoPackage)
    ensures RefsAll(a + b, d) == RefsAll(a, d) + RefsAll(b, d)
    decreases |b|
  {
    if |b| == 0 {
      assert a + b == a;
    } else {
      var pre, f := b[..|b| - 1], b[|b| - 1];
      RefsAllConcat(a, pre, d);
      ConcatSplitLast(a, b);
      RefsAllSnoc(a + pre, f, d);
      RefsAllSnoc(pre, f, d);
      ConcatAssoc(RefsAll(a, d), RefsAll(pre, d), RefsAdded(f, d));
    }
  }

  /** One more enricher adds its references at the end. */
  lemma RefsAllSnoc(fs: seq<Enricher>, f: Enricher, d: EcoPackage)
    ensures RefsAll(fs + [f], d) == RefsAll(fs, d) + RefsAdded(f, d)
  {
    assert (fs + [f])[..|fs|] == fs;
  }

  /** The properties of two lists run one after the other. */
  lemma {:induction false} PropsAllConcat(a: seq<Enricher>, b: seq<Enricher>, d: EcoPackage, rfc3339: Time -> string)
    requires TopicsAreStrings(d)
    ensures PropsAll(a + b, d, rfc3339) == PropsAll(a, d, rfc3339) + PropsAll(b, d, rfc3339)
    decreases |b|
  {
    if |b| == 0 {
      assert a + b == a;
    } else {
      var pre, f := b[..|b| - 1], b[|b| - 1];
      PropsAllConcat(a, pre, d, rfc3339);
      ConcatSplitLast(a, b);
      PropsAllSnoc(a + pre, f, d, rfc3339);
      PropsAllSnoc(pre, f, d, rfc3339);
      ConcatAssoc(PropsAll(a, d, rfc3339), PropsAll(pre, d, rfc3339), PropsAdded(f, d, rfc3339));
    }
  }

  /** One more enricher adds its properties at the end. */
  lemma PropsAllSnoc(fs: seq<Enricher>, f: Enricher, d: EcoPackage, rfc3339: Time -> string)
    requires TopicsAreStrings(d)
    ensures PropsAll(fs + [f], d, rfc3339) == PropsAll(fs, d, rfc3339) + PropsAdded(f, d, rfc3339)
  {
    assert (fs + [f])[..|fs|] == fs;
  }

  // enrichFuncs in four runs: the fields set outright first, then the URL
  // references, the repository properties, and the owner's fields last.
  const FieldFuncs: seq<Enricher> := [Description, Enricher.License]
  const UrlFuncs: seq<Enricher> := [Homepage, RegistryURL, RepositoryURL, DocumentationURL]
  const RepoFuncs: seq<Enricher> := [FirstReleasePublishedAt, LatestReleasePublishedAt, RepoArchived, Location, Topics]
  const OwnerFuncs: seq<Enricher> := [Author, Supplier]

  lemma EnrichFuncsRuns()
    ensures EnrichFuncs == FieldFuncs + UrlFuncs + RepoFuncs + OwnerFuncs
  {
  }

  lemma FieldAndOwnerLists(d: EcoPackage, rfc3339: Time -> string)
    requires TopicsAreStrings(d)
    ensures RefsAll(FieldFuncs, d) == [] && PropsAll(FieldFuncs, d, rfc3339) == []
    ensures RefsAll(OwnerFuncs, d) == [] && PropsAll(OwnerFuncs, d, rfc3339) == []
  {
    assert FieldFuncs[..1] == [Description] && [Description][..0] == [];
    assert OwnerFuncs[..1] == [Author] && [Author][..0] == [];
  }

  lemma UrlLists(d: EcoPackage, rfc3339: Time -> string)
    requires TopicsAreStrings(d)
    ensures RefsAll(UrlFuncs, d) == UrlRef(d.homepage, ERTypeWebsite) + UrlRef(d.registryUrl, ERTypeDistribution)
      + UrlRef(d.repositoryUrl, ERTypeVCS) + UrlRef(d.documentationUrl, ERTypeDocumentation)
    ensures PropsAll(UrlFuncs, d, rfc3339) == []
  {
    var s1, s2, s3 := [Homepage], [Homepage, RegistryURL], [Homepage, RegistryURL, RepositoryURL];
    assert UrlFuncs[..3] == s3 && s3[..2] == s2 && s2[..1] == s1 && s1[..0] == [];
    assert RefsAll(s1, d) == UrlRef(d.homepage, ERTypeWebsite);
    assert RefsAll(s2, d) == RefsAll(s1, d) + UrlRef(d.registryUrl, ERTypeDistribution);
    assert RefsAll(s3, d) == RefsAll(s2, d) + UrlRef(d.repositoryUrl, ERTypeVCS);
    assert PropsAll(s1, d, rfc3339) == [] && PropsAll(s2, d, rfc3339) == [] && PropsAll(s3, d, rfc3339) == [];
  }

  lemma RepoLists(d: EcoPackage, rfc3339: Time -> string)
    requires TopicsAreStrings(d)
    ensures RefsAll(RepoFuncs, d) == []
    ensures PropsAll(RepoFuncs, d, rfc3339) == TimeProp(d.firstReleasePublishedAt, FirstReleaseProperty, rfc3339)
      + TimeProp(d.latestReleasePublishedAt, LatestReleaseProperty, rfc3339)
      + PropsAdded(RepoArchived, d, rfc3339) + PropsAdded(Location, d, rfc3339) + TopicProperties(TopicItems(d))
  {
    var rfc := rfc3339;
    var s1, s2 := [FirstReleasePublishedAt], [FirstReleasePublishedAt, LatestReleasePublishedAt];
    var s3 := [FirstReleasePublishedAt, LatestReleasePublishedAt, RepoArchived];
    var s4 := [FirstReleasePublishedAt, LatestReleasePublishedAt, RepoArchived, Location];
    assert RepoFuncs[..4] == s4 && s4[..3] == s3 && s3[..2] == s2 && s2[..1] == s1 && s1[..0] == [];
    assert PropsAll(s1, d, rfc) == TimeProp(d.firstReleasePublishedAt, FirstReleaseProperty, rfc);
    assert PropsAll(s2, d, rfc) == PropsAll(s1, d, rfc) + TimeProp(d.latestReleasePublishedAt, LatestReleaseProperty, rfc);
    assert PropsAll(s3, d, rfc) == PropsAll(s2, d, rfc) + PropsAdded(RepoArchived, d, rfc);
    assert PropsAll(s4, d, rfc) == PropsAll(s3, d, rfc) + PropsAdded(Location, d, rfc);
    assert RefsAll(s1, d) == [] && RefsAll(s2, d) == [] && RefsAll(s3, d) == [] && RefsAll(s4, d) == [];
  }

  /** enrichFuncs add the URL references in the order home page, registry,
      repository, documentation, and the properties in the order first
      release, latest release, archived, owner location, topics. */
  lemma EnrichFuncsLists(d: EcoPackage, rfc3339: Time -> string)
    requires TopicsAreStrings(d)
    ensures RefsAll(EnrichFuncs, d) == UrlRef(d.homepage, ERTypeWebsite) + UrlRef(d.registryUrl, ERTypeDistribution)
      + UrlRef(d.repositoryUrl, ERTypeVCS) + UrlRef(d.documentationUrl, ERTypeDocumentation)
    ensures PropsAll(EnrichFuncs, d, rfc3339) == TimeProp(d.firstReleasePublishedAt, FirstReleaseProperty, rfc3339)
      + TimeProp(d.latestReleasePublishedAt, LatestReleaseProperty, rfc3339)
      + PropsAdded(RepoArchived, d, rfc3339) + PropsAdded(Location, d, rfc3339) + TopicProperties(TopicItems(d))
  {
    EnrichFuncsRuns();
    FieldAndOwnerLists(d, rfc3339);
    UrlLists(d, rfc3339);
    RepoLists(d, rfc3339);
    RefsAllConcat(FieldFuncs, UrlFuncs, d);
    RefsAllConcat(FieldFuncs + UrlFuncs, RepoFuncs, d);
    RefsAllConcat(FieldFuncs + UrlFuncs + RepoFuncs, OwnerFuncs, d);
    PropsAllConcat(FieldFuncs, UrlFuncs, d, rfc3339);
    PropsAllConcat(FieldFuncs + UrlFuncs, RepoFuncs, d, rfc3339);
    PropsAllConcat(FieldFuncs + UrlFuncs + RepoFuncs, OwnerFuncs, d, rfc3339);
  }

  /** enrichFuncs set the description, the licence, the author and the
      supplier each from its own field of the data, and leave them when
      the data has nothing for them. */
  lemma EnrichFuncsFields(c: Component, d: EcoPackage, rfc3339: Time -> string)
    requires TopicsAreStrings(d)
    ensures var r := ApplyAll(EnrichFuncs, c, d, rfc3339);
      r.description == d.description.GetOr(c.description)
      && r.licenses == (if |d.normalizedLicenses| > 0 then Some([LicenseChoice(None, d.normalizedLicenses[0])]) else c.licenses)
      && r.author == OwnerField(d, "name").GetOr(c.author)
      && r.supplier == (if SupplierOf(d).Some? then SupplierOf(d) else c.supplier)
  {
    var mid := UrlFuncs + RepoFuncs;
    EnrichFuncsRuns();
    assert EnrichFuncs == FieldFuncs + mid + OwnerFuncs;
    ApplyAllConcat(FieldFuncs, mid, c, d, rfc3339);
    ApplyAllConcat(FieldFuncs + mid, OwnerFuncs, c, d, rfc3339);
    var first := ApplyAll(FieldFuncs, c, d, rfc3339);
    FieldAndOwnerRuns(c, ApplyAll(mid, first, d, rfc3339), d, rfc3339);
    MidKeepsFields();
    ApplyAllEffect(mid, first, d, rfc3339);
  }

  /** The first run sets the description and the licence, the last the
      author and the supplier. */
  lemma FieldAndOwnerRuns(c: Component, c2: Component, d: EcoPackage, rfc3339: Time -> string)
    requires TopicsAreStrings(d)
    ensures ApplyAll(FieldFuncs, c, d, rfc3339) == EnrichLicense(EnrichDescription(c, d), d)
    ensures ApplyAll(OwnerFuncs, c2, d, rfc3339) == EnrichSupplier(EnrichAuthor(c2, d), d)
  {
    assert FieldFuncs[..1] == [Description] && [Description][..0] == [];
    assert OwnerFuncs[..1] == [Author] && [Author][..0] == [];
  }

  /** The runs in between set none of those fields. */
  lemma MidKeepsFields()
    ensures Description !in UrlFuncs + RepoFuncs && Enricher.License !in UrlFuncs + RepoFuncs
    ensures Author !in UrlFuncs + RepoFuncs && Supplier !in UrlFuncs + RepoFuncs
  {
    var mid := UrlFuncs + RepoFuncs;
    assert mid == [Homepage, RegistryURL, RepositoryURL, DocumentationURL,
      FirstReleasePublishedAt, LatestReleasePublishedAt, RepoArchived, Location, Topics];
  }

  /** The enricher loop, over the list it is given. */
  method RunEnrichers(fs: seq<Enricher>, c: Component, d: EcoPackage, rfc3339: Time -> string) returns (r: Component)
    requires TopicsAreStrings(d)
    ensures r == ApplyAll(fs, c, d, rfc3339)
  {
    r := c;
    var i := 0;
    while i < |fs|
      invariant 0 <= i <= |fs|
      invariant r == ApplyAll(fs[..i], c, d, rfc3339)
    {
      assert fs[..i + 1][..i] == fs[..i];
      if fs[i] == Topics {
        r := EnrichTopics(r, d);
      } else {
        r := Apply(fs[i], r, d, rfc3339);
      }
      i := i + 1;
    }
    assert fs[..i] == fs;
  }

  // ----- the component loop -----

  /** The package data a component is enriched with. The purl parse error
      is dropped: a component whose purl does not parse is looked up under
      the zero PackageURL. */
  function FetchedData(env: Env, c: Component): Option<EcoPackage> {
    match env.getPackageData(ParseOrZero(env.codec, c.packageURL))
    case Err(_) => None
    case Ok(resp) => resp.json200
  }

  /** The data a component would be enriched with has string topics only. */
  predicate TopicsTyped(env: Env, c: Component) {
    FetchedData(env, c).Some? ==> TopicsAreStrings(FetchedData(env, c).value)
  }

  /** The goroutine body as a specification. */
  function Enriched(env: Env, fs: seq<Enricher>, c: Component): Component
    requires TopicsTyped(env, c)
  {
    match FetchedData(env, c)
    case None => c
    case Some(d) => ApplyAll(fs, c, d, env.rfc3339)
  }

  /** The goroutine body: fetch, and on success with a body, the
      enrichers in list order. */
  method EnrichComponent(env: Env, fs: seq<Enricher>, c: Component) returns (r: Component)
    requires TopicsTyped(env, c)
    ensures r == Enriched(env, fs, c)
  {
    r := c;
    var purl := ParseOrZero(env.codec, c.packageURL);
    var resp := env.getPackageData(purl);
    if resp.Ok? {
      var packageData := resp.value.json200;
      if packageData.Some? {
        r := RunEnrichers(fs, c, packageData.value, env.rfc3339);
      }
    }
  }

  /** enrichComponentsWithEcosystems: slot i of the new list is component i
      enriched. */
  method EnrichComponentsWithEcosystems(env: Env, fs: seq<Enricher>, comps: seq<Component>) returns (newComponents: seq<Component>)
    requires forall i :: 0 <= i < |comps| ==> TopicsTyped(env, comps[i])
    ensures |newComponents| == |comps|
    ensures forall i :: 0 <= i < |comps| ==> newComponents[i] == Enriched(env, fs, comps[i])
  {
    newComponents := comps;
    var i := 0;
    while i < |comps|
      invariant 0 <= i <= |comps| && |newComponents| == |comps|
      invariant forall j :: 0 <= j < i ==> newComponents[j] == Enriched(env, fs, comps[j])
    {
      var component := EnrichComponent(env, fs, comps[i]);
      newComponents := newComponents[i := component];
      i := i + 1;
    }
  }

  /** Every top-level component's data has string topics. */
  predicate BomTyped(env: Env, bom: Bom) {
    bom.components.Some? ==> forall i :: 0 <= i < |bom.components.value| ==> TopicsTyped(env, bom.components.value[i])
  }

  /** The BOM enrichCDXDoc leaves. */
  function EnrichedBom(env: Env, bom: Bom): Bom
    requires BomTyped(env, bom)
  {
    match bom.components
    case None => bom
    case Some(cs) => bom.(components := Some(seq(|cs|, i requires 0 <= i < |cs| => Enriched(env, EnrichFuncs, cs[i]))))
  }

  /** enrichCDXDoc: nil components are left as they are; otherwise slot i
      is component i run through enrichFuncs, and nothing else of the BOM
      changes. */
  method EnrichCDXDoc(env: Env, bom: Bom) returns (r: Bom)
    requires BomTyped(env, bom)
    ensures r == EnrichedBom(env, bom)
    ensures bom.components.None? ==> r == bom
    ensures r.(components := bom.components) == bom
    ensures bom.components.Some? ==> (r.components.Some? && |r.components.value| == |bom.components.value|)
  {
    if bom.components.None? {
      return bom;
    }
    var newComponents := EnrichComponentsWithEcosystems(env, EnrichFuncs, bom.components.value);
    assert newComponents == EnrichedBom(env, bom).components.value;
    r := bom.(components := Some(newComponents));
  }

  /** EnrichSBOM: CycloneDX goes to enrichCDXDoc, SPDX to enrichSPDXDoc of
      lib/ecosystems/spdx2_3.go, anything else is an error naming its type
      (typeName stands for the %T rendering) and is left as it is. */
  method EnrichSBOM(env: Env, doc: Sbom.SBOMDocument, typeName: string) returns (r: Sbom.SBOMDocument, err: Option<string>)
    requires doc.bom.CycloneDXBom? ==> BomTyped(env, doc.bom.cdx)
    requires doc.bom.SPDXDoc? ==> forall i :: 0 <= i < |doc.bom.spdx.packages| ==>
      EcoSpdx23.FieldsPresent(EcoSpdx.Env(env.codec, env.getPackageData), doc.bom.spdx.packages[i])
    ensures doc.bom.CycloneDXBom? ==> err.None? && r == doc.(bom := Sbom.CycloneDXBom(EnrichedBom(env, doc.bom.cdx)))
    ensures doc.bom.SPDXDoc? ==> (err.None? &&
      r == doc.(bom := Sbom.SPDXDoc(EcoSpdx23.EnrichedDoc(EcoSpdx.Env(env.codec, env.getPackageData), doc.bom.spdx))))
    ensures doc.bom.OtherBom? ==> err == Some(CannotEnrichPrefix + typeName) && r == doc
  {
    match doc.bom
    case CycloneDXBom(bom) =>
      var enriched := EnrichCDXDoc(env, bom);
      return doc.(bom := Sbom.CycloneDXBom(enriched)), None;
    case SPDXDoc(spdx) =>
      var enriched := EcoSpdx23.EnrichSPDXDoc(EcoSpdx.Env(env.codec, env.getPackageData), spdx);
      return doc.(bom := Sbom.SPDXDoc(enriched)), None;
    case OtherBom =>
      return doc, Some(CannotEnrichPrefix + typeName);
  }
}
