/** The OpenSSF Scorecard enricher for CycloneDX documents walked through
    handles (lib/scorecard/enrich_cyclonedx.go): every discovered
    component, metadata and nested ones included, is enriched in place.

    The source closes the GET's response body before it looks at the
    transport error, so a transport error there is a nil dereference: the
    model requires that every GET it makes reaches the server. */
module ScorecardCdx {
  import opened Base
  import opened GoStrings
  import opened Cdx
  import opened UtilsCdx
  import opened Purl
  import opened EcoTypes
  import opened ScorecardEnrich

  /** cdxEnrichExternalReference, on the pointed-to component: the
      reference goes after the existing ones (a nil list becomes a
      one-element list); nothing else changes. */
  function CdxEnrichExternalReference(c: Component, url: string, comment: string, refType: string): (r: Component)
    ensures r.externalReferences == Some(Elems(c.externalReferences) + [ExternalReference(url, comment, refType)])
    ensures r.(externalReferences := c.externalReferences) == c
  {
    c.(externalReferences := Append(c.externalReferences, ExternalReference(url, comment, refType)))
  }

  /** The Scorecard URL the goroutine requests for a component: its purl
      parses, the package data was fetched and names a repository. */
  function Requested(env: Env, c: Component): (r: Option<string>)
    ensures r.Some? <==> (env.codec.parse(c.packageURL).Ok? && RepositoryURL(env, env.codec.parse(c.packageURL).value).Some?)
  {
    match env.codec.parse(c.packageURL)
    case Err(_) => None
    case Ok(p) =>
      match RepositoryURL(env, p)
      case None => None
      case Some(u) => Some(ScorecardURL(u))
  }

  /** No GET the enricher makes for a component of bom ends in a transport
      error. */
  ghost predicate GetsReachServer(env: Env, bom: Bom) {
    forall g :: Valid(bom, g) && Requested(env, At(bom, g)).Some? ==> env.httpGet(Requested(env, At(bom, g)).value).Ok?
  }

  /** What the goroutine does to the component a handle points to. */
  function Update(env: Env): Component -> Component {
    (c: Component) =>
      match Requested(env, c)
      case None => c
      case Some(url) =>
        if env.httpGet(url) == Ok(StatusOK) then CdxEnrichExternalReference(c, url, ScorecardComment, ERTypeOther) else c
  }

  /** At most one reference is added to a component, after the existing
      ones, and only when its purl parses, the package data names a
      repository and the Scorecard URL answers 200; nothing else changes. */
  lemma UpdateAddsAtMostOne(env: Env, c: Component)
    ensures Update(env)(c).(externalReferences := c.externalReferences) == c
    ensures Update(env)(c) != c <==> (Requested(env, c).Some? && env.httpGet(Requested(env, c).value) == Ok(StatusOK))
    ensures Update(env)(c) != c ==> (Update(env)(c).externalReferences ==
      Some(Elems(c.externalReferences) + [ExternalReference(Requested(env, c).value, ScorecardComment, ERTypeOther)]))
  {
    var r := Update(env)(c);
    if Requested(env, c).Some? && env.httpGet(Requested(env, c).value) == Ok(StatusOK) {
      assert |Elems(r.externalReferences)| == |Elems(c.externalReferences)| + 1;
    }
  }

  /** The update reads and writes own fields only. */
  lemma UpdateOwn(env: Env, c: Component)
    ensures Own(Update(env)(Own(c))) == Own(Update(env)(c))
    ensures Update(env)(c).components == c.components
  {
    assert Own(c).packageURL == c.packageURL;
    assert Requested(env, Own(c)) == Requested(env, c);
    var u := Requested(env, c);
    if u.Some? && env.httpGet(u.value) == Ok(StatusOK) {
      assert Update(env)(c) == CdxEnrichExternalReference(c, u.value, ScorecardComment, ERTypeOther);
      assert Update(env)(Own(c)) == CdxEnrichExternalReference(Own(c), u.value, ScorecardComment, ERTypeOther);
    } else {
      assert Update(env)(c) == c;
      assert Update(env)(Own(c)) == Own(c);
    }
  }

  /** The goroutine body on one component: parse, fetch, rewrite, GET, and
      the reference on 200. */
  method EnrichComponent(env: Env, c: Component) returns (r: Component)
    requires Requested(env, c).Some? ==> env.httpGet(Requested(env, c).value).Ok?
    ensures r == Update(env)(c)
  {
    r := c;
    var purl := env.codec.parse(c.packageURL);
    if purl.Err? {
      return;
    }
    var resp := env.getPackageData(purl.value);
    if resp.Err? {
      return;
    }
    if resp.value.json200.None? || resp.value.json200.value.repositoryUrl.None? {
      return;
    }
    var scorecardURL := ReplaceAll(resp.value.json200.value.repositoryUrl.value, "https://", ScorecardAPIPrefix);
    var response := env.httpGet(scorecardURL);
    if response.value != StatusOK {
      return;
    }
    r := CdxEnrichExternalReference(c, scorecardURL, ScorecardComment, ERTypeOther);
  }

  /** Writing the next discovered component keeps the progress invariant. */
  lemma EnrichStep(env: Env, bom0: Bom, bom: Bom, i: nat, n: Component)
    requires Progress(bom0, bom, i, Update(env)) && i < |Discover(bom0)|
    requires n == Update(env)(At(bom, Discover(bom0)[i]))
    ensures Valid(bom, Discover(bom0)[i])
    ensures Progress(bom0, Write(bom, Discover(bom0)[i], n), i + 1, Update(env))
  {
    var h := Discover(bom0)[i];
    var c := At(bom, h);
    assert Own(c) == Own(At(bom0, h));
    UpdateOwn(env, c);
    UpdateOwn(env, At(bom0, h));
    ProgressStep(bom0, bom, i, Update(env), n);
  }

  /** The component the next handle points to is still as it was, so the
      precondition on GETs covers it. */
  lemma NextReaches(env: Env, bom0: Bom, bom: Bom, i: nat)
    requires Progress(bom0, bom, i, Update(env)) && i < |Discover(bom0)|
    requires GetsReachServer(env, bom0)
    ensures Valid(bom, Discover(bom0)[i])
    ensures Requested(env, At(bom, Discover(bom0)[i])).Some? ==>
      env.httpGet(Requested(env, At(bom, Discover(bom0)[i])).value).Ok?
  {
    var h := Discover(bom0)[i];
    assert Own(At(bom, h)) == Own(At(bom0, h));
    assert At(bom, h).packageURL == At(bom0, h).packageURL;
  }

  /** enrichCDX: every component of the document gets its Scorecard
      reference (or not) as Update says; the tree keeps its shape, every
      list staying nil exactly when it was, and the vulnerabilities are
      untouched. */
  method EnrichCDX(env: Env, bom0: Bom) returns (bom: Bom)
    requires GetsReachServer(env, bom0)
    ensures forall g :: Valid(bom0, g) <==> Valid(bom, g)
    ensures forall g :: Valid(bom0, g) ==> Own(At(bom, g)) == Own(Update(env)(Own(At(bom0, g))))
    ensures bom.vulnerabilities == bom0.vulnerabilities
    ensures KeepsNil(bom0, bom)
  {
    var comps := DiscoverCDXComponents(bom0);
    bom := bom0;
    ProgressStart(bom0, Update(env));
    var i := 0;
    while i < |comps|
      invariant 0 <= i <= |comps| && comps == Discover(bom0)
      invariant Progress(bom0, bom, i, Update(env))
    {
      var h := comps[i];
      NextReaches(env, bom0, bom, i);
      var component := EnrichComponent(env, At(bom, h));
      EnrichStep(env, bom0, bom, i, component);
      bom := Write(bom, h, component);
      i := i + 1;
    }
    ProgressAll(bom0, bom, Update(env));
  }
}
