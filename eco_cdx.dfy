/** The ecosyste.ms enricher for CycloneDX documents that works through
    pointers (lib/ecosystems/enrich_cyclonedx.go): every discovered
    component, metadata and nested ones included, whose purl parses and
    whose package data was fetched with a body is run through twelve
    package enrichers; then, when the package-version data is fetched with a
    body, its licences replace the component's.

    The enrichers write the pointed-to component; the model computes the
    new component as a value and writes it back through its handle. Each
    goroutine touches its own component only, so the model visits them in
    discovery order. */
module EcoCdx {
  import opened Base
  import opened GoStrings
  import opened Cdx
  import opened UtilsCdx
  import opened Purl
  import opened EcoTypes
  import GoUrl
  import UtilsSpdx
  import EcoEnrich

  /** packageurl.FromString, GetPackageData, GetPackageVersionData, the
      RFC 3339 rendering of a time in UTC, url.Parse's character checks and
      spdxexp.ValidateLicenses (which returns the items it rejects). */
  datatype Env = Env(
    codec: Codec,
    getPackageData: PackageURL -> Result<Response<EcoPackage>>,
    getPackageVersionData: PackageURL -> Result<Response<EcoVersion>>,
    rfc3339: Time -> string,
    url: GoUrl.UrlLib,
    validate: seq<string> -> seq<string>)

  /** The package enrichers. */
  datatype PackageEnricher =
    | Description | Homepage | RegistryURL | RepositoryURL | DocumentationURL | FirstReleasePublishedAt
    | LatestReleasePublishedAt | RepoArchived | Location | Topics | Author | Supplier

  /** cdxPackageEnrichers, in its order. */
  const CdxPackageEnrichers: seq<PackageEnricher> := [Description, Homepage, RegistryURL, RepositoryURL,
    DocumentationURL, FirstReleasePublishedAt, LatestReleasePublishedAt, RepoArchived, Location, Topics, Author, Supplier]

  // ----- external references -----

  /** enrichExternalReference: a nil URL, or one url.Parse rejects, leaves
      the component as it is; otherwise the reference goes after the
      existing ones (a nil list becomes a one-element list). */
  function EnrichExternalReference(lib: GoUrl.UrlLib, c: Component, ref: Option<string>, refType: string): (r: Component)
    ensures r.(externalReferences := c.externalReferences) == c
    ensures ref.None? || GoUrl.Parse(lib, ref.value).Err? ==> r == c
    ensures ref.Some? && GoUrl.Parse(lib, ref.value).Ok? ==>
      r.externalReferences == Some(Elems(c.externalReferences) + [ExternalReference(ref.value, "", refType)])
  {
    if ref.None? || GoUrl.Parse(lib, ref.value).Err? then c
    else c.(externalReferences := Append(c.externalReferences, ExternalReference(ref.value, "", refType)))
  }

  // ----- topics -----

  /** The topics that are strings, in order; the others are skipped. */
  function StringTopics(ts: seq<Json>): seq<string>
    decreases |ts|
  {
    if |ts| == 0 then []
    else StringTopics(ts[..|ts| - 1]) + (if ts[|ts| - 1].JString? then [ts[|ts| - 1].s] else [])
  }

  /** A topic name is kept exactly when it occurs as a string topic. */
  lemma {:induction false} StringTopicsMembers(ts: seq<Json>, name: string)
    ensures name in StringTopics(ts) <==> JString(name) in ts
    decreases |ts|
  {
    if |ts| > 0 {
      StringTopicsMembers(ts[..|ts| - 1], name);
      assert ts == ts[..|ts| - 1] + [ts[|ts| - 1]];
    }
  }

  /** One "ecosystems:topic" property per name. */
  function TopicProps(names: seq<string>): (ps: seq<Property>)
    ensures |ps| == |names|
    ensures forall i :: 0 <= i < |names| ==> ps[i] == Property(EcoEnrich.TopicProperty, names[i])
  {
    seq(|names|, i requires 0 <= i < |names| => Property(EcoEnrich.TopicProperty, names[i]))
  }

  /** When every topic is a string, the topic properties are those of the
      by-value enricher. */
  lemma {:induction false} StringTopicsAll(ts: seq<Json>)
    requires forall i :: 0 <= i < |ts| ==> ts[i].JString?
    ensures TopicProps(StringTopics(ts)) == EcoEnrich.TopicProperties(ts)
    decreases |ts|
  {
    if |ts| > 0 {
      StringTopicsAll(ts[..|ts| - 1]);
      assert |StringTopics(ts)| == |ts| by { StringTopicsLength(ts); }
      forall i | 0 <= i < |ts| ensures TopicProps(StringTopics(ts))[i] == EcoEnrich.TopicProperties(ts)[i] {
        if i < |ts| - 1 {
          assert TopicProps(StringTopics(ts[..|ts| - 1]))[i] == EcoEnrich.TopicProperties(ts[..|ts| - 1])[i];
        }
      }
    }
  }

  /** When every topic is a string, none is skipped. */
  lemma {:induction false} StringTopicsLength(ts: seq<Json>)
    requires forall i :: 0 <= i < |ts| ==> ts[i].JString?
    ensures |StringTopics(ts)| == |ts|
    ensures forall i :: 0 <= i < |ts| ==> StringTopics(ts)[i] == ts[i].s
    decreases |ts|
  {
    if |ts| > 0 {
      StringTopicsLength(ts[..|ts| - 1]);
    }
  }

  /** What enrichCDXTopics leaves. */
  function EnrichedTopics(c: Component, d: EcoPackage): Component {
    c.(properties := AppendAll(c.properties, TopicProps(StringTopics(EcoEnrich.TopicItems(d)))))
  }

  /** enrichCDXTopics: the loop over the topics appends one property per
      string topic. */
  method EnrichCDXTopics(c: Component, d: EcoPackage) returns (r: Component)
    ensures r == EnrichedTopics(c, d)
  {
    r := c;
    if d.repoMetadata.Some? {
      var meta := d.repoMetadata.value;
      if "topics" in meta && meta["topics"].JArray? {
        var topics := meta["topics"].items;
        var i := 0;
        while i < |topics|
          invariant 0 <= i <= |topics| && topics == EcoEnrich.TopicItems(d)
          invariant r == c.(properties := AppendAll(c.properties, TopicProps(StringTopics(topics[..i]))))
        {
          assert topics[..i + 1][..i] == topics[..i];
          if topics[i].JString? {
            var p := Property(EcoEnrich.TopicProperty, topics[i].s);
            assert TopicProps(StringTopics(topics[..i + 1])) == TopicProps(StringTopics(topics[..i])) + [p];
            AppendAllStep(c.properties, TopicProps(StringTopics(topics[..i])), p);
            r := EcoEnrich.EnrichProperty(r, EcoEnrich.TopicProperty, topics[i].s);
          } else {
            assert StringTopics(topics[..i + 1]) == StringTopics(topics[..i]);
          }
          i := i + 1;
        }
        assert topics[..i] == topics;
      }
    }
  }

  // ----- supplier -----

  const WebsiteSeparator: string := ", "

  /** The supplier URLs of an owner's website: the pieces between ", "
      separators, each without its surrounding white space. */
  function SupplierURLs(website: string): seq<string> {
    TrimmedAll(Split(website, WebsiteSeparator))
  }

  /** Every piece without its surrounding white space. */
  function TrimmedAll(parts: seq<string>): seq<string> {
    seq(|parts|, i requires 0 <= i < |parts| => TrimSpace(parts[i]))
  }

  /** One URL per piece, none with white space at either end. */
  lemma SupplierURLsTrimmed(website: string)
    ensures |SupplierURLs(website)| == |Split(website, WebsiteSeparator)|
    ensures forall i :: 0 <= i < |SupplierURLs(website)| ==> Trimmed(SupplierURLs(website)[i])
  {
    var parts := Split(website, WebsiteSeparator);
    var r := SupplierURLs(website);
    forall i | 0 <= i < |r| ensures Trimmed(r[i]) {
      assert r[i] == TrimSpace(parts[i]);
    }
  }

  /** A website with no ", " and no surrounding white space is the only URL. */
  lemma SupplierURLsSingle(website: string)
    requires !Contains(website, WebsiteSeparator) && TrimSpace(website) == website
    ensures SupplierURLs(website) == [website]
  {
  }

  /** The supplier enrichCDXSupplier builds: the owner's name, and the
      website's pieces as the URLs when it is a string. */
  function SupplierOf(d: EcoPackage): Option<OrganizationalEntity> {
    match EcoEnrich.OwnerField(d, "name")
    case None => None
    case Some(name) =>
      Some(OrganizationalEntity(name,
        match EcoEnrich.OwnerField(d, "website") case None => None case Some(w) => Some(SupplierURLs(w))))
  }

  /** What enrichCDXSupplier leaves. */
  function EnrichedSupplier(c: Component, d: EcoPackage): (r: Component)
    ensures r.(supplier := c.supplier) == c
    ensures SupplierOf(d).None? ==> r == c
    ensures SupplierOf(d).Some? ==> r.supplier == SupplierOf(d)
  {
    if SupplierOf(d).Some? then c.(supplier := SupplierOf(d)) else c
  }

  /** The pieces of the split website copied into a fresh slice and trimmed
      there by the loop. */
  method TrimAll(parts: seq<string>) returns (urls: seq<string>)
    ensures urls == TrimmedAll(parts)
  {
    var split := new string[|parts|](i requires 0 <= i < |parts| => parts[i]);
    assert split[..] == parts;
    MapInPlace(split, TrimSpace);
    urls := split[..];
    assert forall k :: 0 <= k < |parts| ==> urls[k] == TrimSpace(parts[k]);
  }

  /** enrichCDXSupplier. */
  method EnrichCDXSupplier(c: Component, d: EcoPackage) returns (r: Component)
    ensures r == EnrichedSupplier(c, d)
  {
    r := c;
    if d.repoMetadata.Some? {
      var meta := d.repoMetadata.value;
      var name := OwnerString(meta, "name");
      if name.Some? {
        var supplier := OrganizationalEntity(name.value, None);
        var website := OwnerString(meta, "website");
        if website.Some? {
          var urls := TrimAll(Split(website.value, WebsiteSeparator));
          supplier := supplier.(url := Some(urls));
        }
        assert Some(supplier) == SupplierOf(d);
        r := c.(supplier := Some(supplier));
      }
    }
  }

  // ----- licences -----

  /** One licence choice per ID, the ID set. */
  function IdChoices(ids: seq<string>): (r: seq<LicenseChoice>)
    ensures |r| == |ids|
  {
    seq(|ids|, i requires 0 <= i < |ids| => LicenseChoice(Some(License(ids[i], "")), ""))
  }

  /** One licence choice per name, the name set. */
  function NameChoices(names: seq<string>): (r: seq<LicenseChoice>)
    ensures |r| == |names|
  {
    seq(|names|, i requires 0 <= i < |names| => LicenseChoice(Some(License("", names[i])), ""))
  }

  /** The items of the version's licence string that are accepted, and
      those rejected. */
  function Accepted(v: EcoVersion, validate: seq<string> -> seq<string>): seq<string> {
    match UtilsSpdx.LicenseItems(Some(v))
    case None => []
    case Some(items) => UtilsSpdx.Without(items, validate(items))
  }

  function Rejected(v: EcoVersion, validate: seq<string> -> seq<string>): seq<string> {
    match UtilsSpdx.LicenseItems(Some(v))
    case None => []
    case Some(items) => validate(items)
  }

  /** What enrichCDXLicense leaves: the licences are replaced outright (an
      empty list when there are none), IDs first, then names. */
  function EnrichedLicense(c: Component, v: EcoVersion, validate: seq<string> -> seq<string>): Component {
    c.(licenses := Some(IdChoices(Accepted(v, validate)) + NameChoices(Rejected(v, validate))))
  }

  /** A licence ID is among the choices exactly when it is among the IDs. */
  lemma IdChoicesHas(ids: seq<string>, x: string)
    ensures LicenseChoice(Some(License(x, "")), "") in IdChoices(ids) <==> x in ids
  {
    var r := IdChoices(ids);
    if LicenseChoice(Some(License(x, "")), "") in r {
      var i :| 0 <= i < |r| && r[i] == LicenseChoice(Some(License(x, "")), "");
      assert ids[i] == x;
    }
    if x in ids {
      var i :| 0 <= i < |ids| && ids[i] == x;
      assert r[i] == LicenseChoice(Some(License(x, "")), "");
    }
  }

  /** A licence name is among the choices exactly when it is among the names. */
  lemma NameChoicesHas(names: seq<string>, x: string)
    ensures LicenseChoice(Some(License("", x)), "") in NameChoices(names) <==> x in names
  {
    var r := NameChoices(names);
    if LicenseChoice(Some(License("", x)), "") in r {
      var i :| 0 <= i < |r| && r[i] == LicenseChoice(Some(License("", x)), "");
      assert names[i] == x;
    }
    if x in names {
      var i :| 0 <= i < |names| && names[i] == x;
      assert r[i] == LicenseChoice(Some(License("", x)), "");
    }
  }

  /** An item of the licence string is written as a licence ID exactly when
      the validator accepts it, and every rejected item is written as a
      licence name; no other licence is written. */
  lemma EnrichedLicenseItems(c: Component, v: EcoVersion, validate: seq<string> -> seq<string>, x: string)
    requires UtilsSpdx.LicenseItems(Some(v)).Some?
    ensures var items := UtilsSpdx.LicenseItems(Some(v)).value;
      var ls := EnrichedLicense(c, v, validate).licenses.value;
      (LicenseChoice(Some(License(x, "")), "") in ls[..|Accepted(v, validate)|] <==> x in items && x !in validate(items))
      && (LicenseChoice(Some(License("", x)), "") in ls[|Accepted(v, validate)|..] <==> x in validate(items))
      && |ls| == |Accepted(v, validate)| + |validate(items)|
  {
    var items := UtilsSpdx.LicenseItems(Some(v)).value;
    var ls := EnrichedLicense(c, v, validate).licenses.value;
    UtilsSpdx.WithoutMembers(items, validate(items));
    var ids, names := IdChoices(Accepted(v, validate)), NameChoices(Rejected(v, validate));
    assert ls[..|ids|] == ids && ls[|ids|..] == names;
    IdChoicesHas(Accepted(v, validate), x);
    NameChoicesHas(Rejected(v, validate), x);
  }

  lemma IdChoicesSnoc(ids: seq<string>, x: string)
    ensures IdChoices(ids + [x]) == IdChoices(ids) + [LicenseChoice(Some(License(x, "")), "")]
  {
    assert forall k :: 0 <= k < |ids| ==> (ids + [x])[k] == ids[k];
  }

  lemma NameChoicesSnoc(names: seq<string>, x: string)
    ensures NameChoices(names + [x]) == NameChoices(names) + [LicenseChoice(Some(License("", x)), "")]
  {
    assert forall k :: 0 <= k < |names| ==> (names + [x])[k] == names[k];
  }

  /** The first loop of enrichCDXLicense: one licence ID per accepted item. */
  method AppendIds(ls0: seq<LicenseChoice>, ids: seq<string>) returns (ls: seq<LicenseChoice>)
    ensures ls == ls0 + IdChoices(ids)
  {
    ls := ls0;
    var i := 0;
    while i < |ids|
      invariant 0 <= i <= |ids|
      invariant ls == ls0 + IdChoices(ids[..i])
    {
      assert ids[..i + 1] == ids[..i] + [ids[i]];
      IdChoicesSnoc(ids[..i], ids[i]);
      ls := ls + [LicenseChoice(Some(License(ids[i], "")), "")];
      i := i + 1;
    }
    assert ids[..i] == ids;
  }

  /** The second loop of enrichCDXLicense: one licence name per rejected item. */
  method AppendNames(ls0: seq<LicenseChoice>, names: seq<string>) returns (ls: seq<LicenseChoice>)
    ensures ls == ls0 + NameChoices(names)
  {
    ls := ls0;
    var j := 0;
    while j < |names|
      invariant 0 <= j <= |names|
      invariant ls == ls0 + NameChoices(names[..j])
    {
      assert names[..j + 1] == names[..j] + [names[j]];
      NameChoicesSnoc(names[..j], names[j]);
      ls := ls + [LicenseChoice(Some(License("", names[j])), "")];
      j := j + 1;
    }
    assert names[..j] == names;
  }

  /** enrichCDXLicense: the ID loop, then the name loop. */
  method EnrichCDXLicense(c: Component, v: EcoVersion, validate: seq<string> -> seq<string>) returns (r: Component)
    ensures r == EnrichedLicense(c, v, validate)
  {
    var validLics, invalidLics := UtilsSpdx.GetSPDXLicensesFromEcosystemsLicense(Some(v), validate);
    assert validLics == Accepted(v, validate) && invalidLics == Rejected(v, validate);
    var licenses := AppendIds([], validLics);
    assert licenses == IdChoices(validLics);
    licenses := AppendNames(licenses, invalidLics);
    r := c.(licenses := Some(licenses));
  }

  // ----- the package enrichers -----

  /** One package enricher applied to the pointed-to component. */
  function Apply(env: Env, f: PackageEnricher, c: Component, d: EcoPackage): Component {
    match f
    case Description => EcoEnrich.EnrichDescription(c, d)
    case Homepage => EnrichExternalReference(env.url, c, d.homepage, ERTypeWebsite)
    case RegistryURL => EnrichExternalReference(env.url, c, d.registryUrl, ERTypeDistribution)
    case RepositoryURL => EnrichExternalReference(env.url, c, d.repositoryUrl, ERTypeVCS)
    case DocumentationURL => EnrichExternalReference(env.url, c, d.documentationUrl, ERTypeDocumentation)
    case FirstReleasePublishedAt =>
      EcoEnrich.EnrichTimestamp(c, d.firstReleasePublishedAt, EcoEnrich.FirstReleaseProperty, env.rfc3339)
    case LatestReleasePublishedAt =>
      EcoEnrich.EnrichTimestamp(c, d.latestReleasePublishedAt, EcoEnrich.LatestReleaseProperty, env.rfc3339)
    case RepoArchived => EcoEnrich.EnrichRepoArchived(c, d)
    case Location => EcoEnrich.EnrichLocation(c, d)
    case Topics => EnrichedTopics(c, d)
    case Author => EcoEnrich.EnrichAuthor(c, d)
    case Supplier => EnrichedSupplier(c, d)
  }

  /** The package enrichers applied one after another. */
  function ApplyAll(env: Env, fs: seq<PackageEnricher>, c: Component, d: EcoPackage): Component
    decreases |fs|
  {
    if |fs| == 0 then c else Apply(env, fs[|fs| - 1], ApplyAll(env, fs[..|fs| - 1], c, d), d)
  }

  /** The loop over the package enrichers. */
  method RunPackageEnrichers(env: Env, fs: seq<PackageEnricher>, c: Component, d: EcoPackage) returns (r: Component)
    ensures r == ApplyAll(env, fs, c, d)
  {
    r := c;
    var i := 0;
    while i < |fs|
      invariant 0 <= i <= |fs|
      invariant r == ApplyAll(env, fs[..i], c, d)
    {
      assert fs[..i + 1][..i] == fs[..i];
      match fs[i] {
        case Topics => r := EnrichCDXTopics(r, d);
        case Supplier => r := EnrichCDXSupplier(r, d);
        case _ => r := Apply(env, fs[i], r, d);
      }
      i := i + 1;
    }
    assert fs[..i] == fs;
  }

  /** The enrichers never look at or change the nested components. */
  lemma ApplyComponents(env: Env, f: PackageEnricher, c: Component, d: EcoPackage, x: ComponentList)
    ensures Apply(env, f, c.(components := x), d) == Apply(env, f, c, d).(components := x)
  {
  }

  lemma {:induction false} ApplyAllComponents(env: Env, fs: seq<PackageEnricher>, c: Component, d: EcoPackage, x: ComponentList)
    ensures ApplyAll(env, fs, c.(components := x), d) == ApplyAll(env, fs, c, d).(components := x)
    decreases |fs|
  {
    if |fs| > 0 {
      ApplyAllComponents(env, fs[..|fs| - 1], c, d, x);
      ApplyComponents(env, fs[|fs| - 1], ApplyAll(env, fs[..|fs| - 1], c, d), d, x);
    }
  }

  // ----- agreement with the by-value enrichers -----

  /** The by-value enricher of lib/ecosystems/enrich.go with the same name. */
  function ByValue(f: PackageEnricher): EcoEnrich.Enricher {
    match f
    case Description => EcoEnrich.Description
    case Homepage => EcoEnrich.Homepage
    case RegistryURL => EcoEnrich.RegistryURL
    case RepositoryURL => EcoEnrich.RepositoryURL
    case DocumentationURL => EcoEnrich.DocumentationURL
    case FirstReleasePublishedAt => EcoEnrich.FirstReleasePublishedAt
    case LatestReleasePublishedAt => EcoEnrich.LatestReleasePublishedAt
    case RepoArchived => EcoEnrich.RepoArchived
    case Location => EcoEnrich.Location
    case Topics => EcoEnrich.Topics
    case Author => EcoEnrich.Author
    case Supplier => EcoEnrich.Supplier
  }

  function ByValues(fs: seq<PackageEnricher>): (r: seq<EcoEnrich.Enricher>)
    ensures |r| == |fs|
    ensures forall i :: 0 <= i < |fs| ==> r[i] == ByValue(fs[i])
  {
    seq(|fs|, i requires 0 <= i < |fs| => ByValue(fs[i]))
  }

  /** Package data on which the two families of enrichers can agree: every
      URL it gives parses, every topic is a string, and the owner's website,
      if any, is a single URL without surrounding white space. */
  predicate Plain(env: Env, d: EcoPackage) {
    (d.homepage.Some? ==> GoUrl.Parse(env.url, d.homepage.value).Ok?)
    && (d.registryUrl.Some? ==> GoUrl.Parse(env.url, d.registryUrl.value).Ok?)
    && (d.repositoryUrl.Some? ==> GoUrl.Parse(env.url, d.repositoryUrl.value).Ok?)
    && (d.documentationUrl.Some? ==> GoUrl.Parse(env.url, d.documentationUrl.value).Ok?)
    && EcoEnrich.TopicsAreStrings(d)
    && (EcoEnrich.OwnerField(d, "website").Some? ==>
          !Contains(EcoEnrich.OwnerField(d, "website").value, WebsiteSeparator)
          && TrimSpace(EcoEnrich.OwnerField(d, "website").value) == EcoEnrich.OwnerField(d, "website").value)
  }

  /** On plain data each package enricher does what its by-value namesake
      does: the URL check, the skipping of non-string topics and the
      splitting of the website make no difference. */
  lemma ApplyAgrees(env: Env, f: PackageEnricher, c: Component, d: EcoPackage)
    requires Plain(env, d)
    ensures Apply(env, f, c, d) == EcoEnrich.Apply(ByValue(f), c, d, env.rfc3339)
  {
    match f
    case Topics => StringTopicsAll(EcoEnrich.TopicItems(d));
    case Supplier => SupplierAgrees(d);
    case Homepage => UrlAgrees(env.url, c, d.homepage, ERTypeWebsite);
    case RegistryURL => UrlAgrees(env.url, c, d.registryUrl, ERTypeDistribution);
    case RepositoryURL => UrlAgrees(env.url, c, d.repositoryUrl, ERTypeVCS);
    case DocumentationURL => UrlAgrees(env.url, c, d.documentationUrl, ERTypeDocumentation);
    case _ =>
  }

  /** A reference whose URL parses is added as the by-value enricher adds it. */
  lemma UrlAgrees(lib: GoUrl.UrlLib, c: Component, ref: Option<string>, refType: string)
    requires ref.Some? ==> GoUrl.Parse(lib, ref.value).Ok?
    ensures EnrichExternalReference(lib, c, ref, refType) == EcoEnrich.EnrichExternalReference(c, ref, refType)
  {
  }

  /** A single trimmed website gives the by-value supplier. */
  lemma SupplierAgrees(d: EcoPackage)
    requires EcoEnrich.OwnerField(d, "website").Some? ==>
      !Contains(EcoEnrich.OwnerField(d, "website").value, WebsiteSeparator)
      && TrimSpace(EcoEnrich.OwnerField(d, "website").value) == EcoEnrich.OwnerField(d, "website").value
    ensures SupplierOf(d) == EcoEnrich.SupplierOf(d)
  {
    if EcoEnrich.OwnerField(d, "website").Some? {
      SupplierURLsSingle(EcoEnrich.OwnerField(d, "website").value);
    }
  }

  lemma {:induction false} ApplyAllAgrees(env: Env, fs: seq<PackageEnricher>, c: Component, d: EcoPackage)
    requires Plain(env, d)
    ensures ApplyAll(env, fs, c, d) == EcoEnrich.ApplyAll(ByValues(fs), c, d, env.rfc3339)
    decreases |fs|
  {
    if |fs| > 0 {
      var pre := fs[..|fs| - 1];
      ApplyAllAgrees(env, pre, c, d);
      assert ByValues(fs)[..|fs| - 1] == ByValues(pre);
      ApplyAgrees(env, fs[|fs| - 1], ApplyAll(env, pre, c, d), d);
    }
  }

  /** The by-value enricher list without its licence enricher. */
  const ByValueList: seq<EcoEnrich.Enricher> := [EcoEnrich.Description, EcoEnrich.Homepage, EcoEnrich.RegistryURL,
    EcoEnrich.RepositoryURL, EcoEnrich.DocumentationURL, EcoEnrich.FirstReleasePublishedAt,
    EcoEnrich.LatestReleasePublishedAt, EcoEnrich.RepoArchived, EcoEnrich.Location, EcoEnrich.Topics,
    EcoEnrich.Author, EcoEnrich.Supplier]

  /** The package enrichers are the by-value list without its licence
      enricher, in the same order. */
  lemma PackageEnrichersByValue()
    ensures ByValues(CdxPackageEnrichers) == ByValueList
    ensures ByValueList == EcoEnrich.EnrichFuncs[..1] + EcoEnrich.EnrichFuncs[2..]
  {
  }

  lemma PackageEnrichersSame(env: Env, c: Component, d: EcoPackage)
    requires Plain(env, d)
    ensures ApplyAll(env, CdxPackageEnrichers, c, d) == EcoEnrich.ApplyAll(ByValueList, c, d, env.rfc3339)
  {
    ApplyAllAgrees(env, CdxPackageEnrichers, c, d);
    PackageEnrichersByValue();
  }

  /** On plain data the package enrichers append the same references and
      properties, in the same order, as the by-value enrichers, and leave
      the licences alone. */
  lemma PackageEnrichersEffect(env: Env, c: Component, d: EcoPackage)
    requires Plain(env, d)
    ensures var r := ApplyAll(env, CdxPackageEnrichers, c, d);
      r.externalReferences == AppendAll(c.externalReferences, EcoEnrich.RefsAll(ByValueList, d))
      && r.properties == AppendAll(c.properties, EcoEnrich.PropsAll(ByValueList, d, env.rfc3339))
      && r.licenses == c.licenses
  {
    PackageEnrichersSame(env, c, d);
    EcoEnrich.ApplyAllEffect(ByValueList, c, d, env.rfc3339);
    assert EcoEnrich.Enricher.License !in ByValueList;
  }

  // ----- the goroutine and the walk -----

  /** The goroutine body as a specification. A purl that does not parse, a
      failed fetch or a response without a body leave the component as it
      is; otherwise the package enrichers run, and the licences are
      replaced only when the version data is fetched with a body. */
  function Enriched(env: Env, c: Component): Component {
    match env.codec.parse(c.packageURL)
    case Err(_) => c
    case Ok(p) =>
      match env.getPackageData(p)
      case Err(_) => c
      case Ok(resp) =>
        if resp.json200.None? then c
        else
          var c1 := ApplyAll(env, CdxPackageEnrichers, c, resp.json200.value);
          match env.getPackageVersionData(p)
          case Err(_) => c1
          case Ok(vresp) => if vresp.json200.None? then c1 else EnrichedLicense(c1, vresp.json200.value, env.validate)
  }

  /** The licences are replaced exactly when the purl parses and both
      fetches return a body; a component that is not enriched at all is
      unchanged. */
  lemma EnrichedLicenses(env: Env, c: Component)
    ensures env.codec.parse(c.packageURL).Err? ==> Enriched(env, c) == c
    ensures var p := env.codec.parse(c.packageURL);
      p.Ok? && (env.getPackageData(p.value).Err? || env.getPackageData(p.value).value.json200.None?) ==> Enriched(env, c) == c
    ensures var p := env.codec.parse(c.packageURL);
      p.Ok? && env.getPackageData(p.value).Ok? && env.getPackageData(p.value).value.json200.Some? ==>
      (Enriched(env, c).licenses ==
        if env.getPackageVersionData(p.value).Ok? && env.getPackageVersionData(p.value).value.json200.Some?
        then Some(IdChoices(Accepted(env.getPackageVersionData(p.value).value.json200.value, env.validate))
               + NameChoices(Rejected(env.getPackageVersionData(p.value).value.json200.value, env.validate)))
        else c.licenses)
  {
    var p := env.codec.parse(c.packageURL);
    if p.Ok? && env.getPackageData(p.value).Ok? && env.getPackageData(p.value).value.json200.Some? {
      var d := env.getPackageData(p.value).value.json200.value;
      ApplyAllComponents(env, CdxPackageEnrichers, c, d, c.components);
      PackageLicensesKept(env, CdxPackageEnrichers, c, d);
    }
  }

  /** No package enricher touches the licences. */
  lemma {:induction false} PackageLicensesKept(env: Env, fs: seq<PackageEnricher>, c: Component, d: EcoPackage)
    ensures ApplyAll(env, fs, c, d).licenses == c.licenses
    decreases |fs|
  {
    if |fs| > 0 {
      PackageLicensesKept(env, fs[..|fs| - 1], c, d);
    }
  }

  /** The goroutine body on one component. */
  method EnrichComponent(env: Env, c: Component) returns (r: Component)
    ensures r == Enriched(env, c)
  {
    r := c;
    var purl := env.codec.parse(c.packageURL);
    if purl.Err? {
      return;
    }
    var packageResp := env.getPackageData(purl.value);
    if packageResp.Err? || packageResp.value.json200.None? {
      return;
    }
    r := RunPackageEnrichers(env, CdxPackageEnrichers, r, packageResp.value.json200.value);
    var packageVersionResp := env.getPackageVersionData(purl.value);
    if packageVersionResp.Err? || packageVersionResp.value.json200.None? {
      return;
    }
    r := EnrichCDXLicense(r, packageVersionResp.value.json200.value, env.validate);
  }

  /** What the goroutine does to the component a handle points to. */
  function Update(env: Env): Component -> Component {
    (c: Component) => Enriched(env, c)
  }

  /** The update reads and writes own fields only. */
  lemma UpdateOwn(env: Env, c: Component)
    ensures Own(Update(env)(Own(c))) == Own(Update(env)(c))
    ensures Update(env)(c).components == c.components
  {
    assert Own(c).packageURL == c.packageURL;
    var p := env.codec.parse(c.packageURL);
    if p.Ok? && env.getPackageData(p.value).Ok? && env.getPackageData(p.value).value.json200.Some? {
      var d := env.getPackageData(p.value).value.json200.value;
      ApplyAllComponents(env, CdxPackageEnrichers, c, d, NilList);
      ApplyAllComponents(env, CdxPackageEnrichers, c, d, c.components);
      assert c.(components := c.components) == c;
    }
  }

  /** Writing the next discovered component keeps the progress invariant. */
  lemma EnrichStep(env: Env, bom0: Bom, bom: Bom, i: nat, n: Component)
    requires Progress(bom0, bom, i, Update(env)) && i < |Discover(bom0)|
    requires n == Update(env)(At(bom, Discover(bom0)[i]))
    ensures Valid(bom, Discover(bom0)[i])
    ensures Progress(bom0, Write(bom, Discover(bom0)[i], n), i + 1, Update(env))
  {
    var h := Discover(bom0)[i];
    var c := At(bom, h);
    assert Own(c) == Own(At(bom0, h));
    UpdateOwn(env, c);
    UpdateOwn(env, At(bom0, h));
    ProgressStep(bom0, bom, i, Update(env), n);
  }

  /** enrichCDX: every component of the document, metadata and nested ones
      included, is enriched as Enriched says; the tree keeps its shape,
      every list staying nil exactly when it was, and the vulnerabilities
      are untouched. */
  method EnrichCDX(env: Env, bom0: Bom) returns (bom: Bom)
    ensures forall g :: Valid(bom0, g) <==> Valid(bom, g)
    ensures forall g :: Valid(bom0, g) ==> Own(At(bom, g)) == Own(Enriched(env, Own(At(bom0, g))))
    ensures bom.vulnerabilities == bom0.vulnerabilities
    ensures KeepsNil(bom0, bom)
  {
    var comps := DiscoverCDXComponents(bom0);
    bom := bom0;
    ProgressStart(bom0, Update(env));
    var i := 0;
    while i < |comps|
      invariant 0 <= i <= |comps| && comps == Discover(bom0)
      invariant Progress(bom0, bom, i, Update(env))
    {
      var h := comps[i];
      EnrichStep(env, bom0, bom, i, Enriched(env, At(bom, h)));
      var component := EnrichComponent(env, At(bom, h));
      bom := Write(bom, h, component);
      i := i + 1;
    }
    ProgressAll(bom0, bom, Update(env));
  }
}
