/** The older by-value enrichers of lib/enrich.go.

    EnrichSBOMWithEcosystems runs the same thirteen enrichers as
    lib/ecosystems/enrich.go (the enricher functions of the two files are
    the same, and are taken from EcoEnrich), but it dereferences the
    response body without a nil check: the model requires every successful
    fetch to carry a body.

    EnrichSBOMWithSnyk asks for the issues of every top-level component,
    files the answers in a map keyed by the component as Go compares it
    (by value when it holds no pointer, otherwise by the element it is), and
    turns every issue of every filed key into one vulnerability. Go reads
    that map in no fixed order; the model reads it in the order in which
    its keys were first filed. The issue fetch (with the decoding of its
    body) and the RFC 3339 rendering are parameters. */
module LibEnrich {
  import opened Base
  import opened Cdx
  import opened Purl
  import opened EcoTypes
  import opened SnykIssues
  import Grouping
  import SnykCdx
  import EcoEnrich

  // ----- EnrichSBOMWithEcosystems -----

  /** A successful fetch for the component carries a body whose topics
      are strings. */
  predicate HasBody(env: EcoEnrich.Env, c: Component) {
    var resp := env.getPackageData(ParseOrZero(env.codec, c.packageURL));
    resp.Ok? ==> resp.value.json200.Some? && EcoEnrich.TopicsAreStrings(resp.value.json200.value)
  }

  /** The goroutine body as a specification: a fetch error leaves the
      component as it is, otherwise the enrichers run on the body. */
  function Enriched(env: EcoEnrich.Env, fs: seq<EcoEnrich.Enricher>, c: Component): Component
    requires HasBody(env, c)
  {
    match env.getPackageData(ParseOrZero(env.codec, c.packageURL))
    case Err(_) => c
    case Ok(resp) => EcoEnrich.ApplyAll(fs, c, resp.json200.value, env.rfc3339)
  }

  /** When every successful fetch has a body, this driver enriches a
      component exactly as the driver of lib/ecosystems/enrich.go does. */
  lemma EnrichedAgrees(env: EcoEnrich.Env, fs: seq<EcoEnrich.Enricher>, c: Component)
    requires HasBody(env, c)
    ensures EcoEnrich.TopicsTyped(env, c)
    ensures Enriched(env, fs, c) == EcoEnrich.Enriched(env, fs, c)
  {
  }

  /** The goroutine body on one component. */
  method EnrichComponent(env: EcoEnrich.Env, fs: seq<EcoEnrich.Enricher>, c: Component) returns (r: Component)
    requires HasBody(env, c)
    ensures r == Enriched(env, fs, c)
  {
    r := c;
    var purl := ParseOrZero(env.codec, c.packageURL);
    var resp := env.getPackageData(purl);
    if resp.Ok? {
      var packageData := resp.value.json200;
      r := EcoEnrich.RunEnrichers(fs, c, packageData.value, env.rfc3339);
    }
  }

  /** enrichComponentsWithEcosystems: slot i of the new list is component i
      enriched. */
  method EnrichComponentsWithEcosystems(env: EcoEnrich.Env, fs: seq<EcoEnrich.Enricher>, comps: seq<Component>)
    returns (newComponents: seq<Component>)
    requires forall i :: 0 <= i < |comps| ==> HasBody(env, comps[i])
    ensures |newComponents| == |comps|
    ensures forall i :: 0 <= i < |comps| ==> newComponents[i] == Enriched(env, fs, comps[i])
  {
    newComponents := comps;
    var i := 0;
    while i < |comps|
      invariant 0 <= i <= |comps| && |newComponents| == |comps|
      invariant forall j :: 0 <= j < i ==> newComponents[j] == Enriched(env, fs, comps[j])
    {
      var component := EnrichComponent(env, fs, comps[i]);
      newComponents := newComponents[i := component];
      i := i + 1;
    }
  }

  /** EnrichSBOMWithEcosystems: nil components leave the BOM as it is;
      otherwise the result is what enrichCDXDoc of lib/ecosystems/enrich.go
      makes of it. */
  method EnrichSBOMWithEcosystems(env: EcoEnrich.Env, bom: Bom) returns (r: Bom)
    requires bom.components.Some? ==> forall i :: 0 <= i < |bom.components.value| ==> HasBody(env, bom.components.value[i])
    ensures bom.components.None? ==> r == bom
    ensures bom.components.Some? ==> EcoEnrich.BomTyped(env, bom) && r == EcoEnrich.EnrichedBom(env, bom)
  {
    if bom.components.None? {
      return bom;
    }
    var comps := bom.components.value;
    var newComponents := EnrichComponentsWithEcosystems(env, EcoEnrich.EnrichFuncs, comps);
    forall i | 0 <= i < |comps|
      ensures EcoEnrich.TopicsTyped(env, comps[i]) && newComponents[i] == EcoEnrich.Enriched(env, EcoEnrich.EnrichFuncs, comps[i])
    {
      EnrichedAgrees(env, EcoEnrich.EnrichFuncs, comps[i]);
    }
    assert newComponents == EcoEnrich.EnrichedBom(env, bom).components.value;
    r := bom.(components := Some(newComponents));
  }

  // ----- EnrichSBOMWithSnyk -----

  /** The Vulnerability DB the ratings name as their source. */
  const SnykSource: Source := Source("Snyk", "https://security.snyk.io")

  /** The issues request for a component's purl (the parse error is
      dropped, so an unparsable purl is asked for as the zero PackageURL),
      and the RFC 3339 rendering of a time in UTC. */
  datatype SnykEnv = SnykEnv(codec: Codec, fetch: PackageURL -> IssuesAnswer, rfc3339: Time -> string)

  /** The issues filed for a component: present when the request succeeded,
      the body decoded and its Data was not nil. */
  function IssuesOf(env: SnykEnv, c: Component): Option<seq<Issue>> {
    Grouping.Answer(env.fetch(ParseOrZero(env.codec, c.packageURL)))
  }

  /** Every severity has a score (it is dereferenced unchecked). */
  predicate Scored(sevs: seq<SeverityEntry>) {
    forall i :: 0 <= i < |sevs| ==> sevs[i].score.Some?
  }

  /** The issue can be turned into a vulnerability without a panic: its CWE
      ids can be sliced and its severities have scores. */
  predicate Readable(issue: Issue) {
    (issue.problems.Some? ==> CweIdsSliceable(issue.problems.value)) && Scored(Elems(issue.severities))
  }

  /** Every issue filed for the component is readable. */
  predicate IssuesReadable(env: SnykEnv, c: Component) {
    IssuesOf(env, c).Some? ==> forall i :: 0 <= i < |IssuesOf(env, c).value| ==> Readable(IssuesOf(env, c).value[i])
  }

  /** One rating per severity, all with the Snyk source and CVSS 3.1 as
      their method, whatever the severity's own source and version say. */
  function Ratings(sevs: seq<SeverityEntry>): (r: seq<Rating>)
    requires Scored(sevs)
    ensures |r| == |sevs|
    ensures forall i :: 0 <= i < |sevs| ==> (r[i].source == SnykSource && r[i].scoringMethod == ScoringMethodCVSSv31
      && r[i].score == sevs[i].score.value && r[i].severity == LevelToCdxSeverity(sevs[i].level) && r[i].vector == sevs[i].vector)
  {
    seq(|sevs|, i requires 0 <= i < |sevs| && sevs[i].score.Some? =>
      Rating(SnykSource, sevs[i].score.value, LevelToCdxSeverity(sevs[i].level), ScoringMethodCVSSv31, sevs[i].vector))
  }

  /** The severity loop, the list nil until its first rating. */
  method MapRatings(sevs: seq<SeverityEntry>) returns (ratings: Option<seq<Rating>>)
    requires Scored(sevs)
    ensures ratings == NilIfEmpty(Ratings(sevs))
  {
    ratings := None;
    var i := 0;
    while i < |sevs|
      invariant 0 <= i <= |sevs|
      invariant ratings == NilIfEmpty(Ratings(sevs[..i]))
    {
      var sev := sevs[i];
      var rating := Rating(SnykSource, sev.score.value, LevelToCdxSeverity(sev.level), ScoringMethodCVSSv31, sev.vector);
      assert Ratings(sevs[..i + 1]) == Ratings(sevs[..i]) + [rating];
      ratings := Append(ratings, rating);
      i := i + 1;
    }
    assert sevs[..i] == sevs;
  }

  /** The vulnerability an issue of the component with the given BOM ref
      gives. */
  function VulnerabilityOf(rfc3339: Time -> string, bomRef: string, issue: Issue): Vulnerability
    requires Readable(issue)
  {
    var ps := Elems(issue.problems);
    Vulnerability(bomRef, issue.id.GetOr(""), issue.title.GetOr(""), issue.description.GetOr(""),
      SnykCdx.TimeOr(rfc3339, issue.createdAt), SnykCdx.TimeOr(rfc3339, issue.updatedAt),
      NilIfEmpty(Cwes(ps)), NilIfEmpty(References(ps)),
      NilIfEmpty(Advisories(Elems(issue.slotReferences))), NilIfEmpty(Ratings(Elems(issue.severities))))
  }

  /** The vulnerability names the component, takes the issue's id, its
      title as the description and its description as the detail; a nil
      problem list gives no CWEs and no references, and there is one
      rating per severity. */
  lemma VulnerabilityFields(rfc3339: Time -> string, bomRef: string, issue: Issue)
    requires Readable(issue)
    ensures var v := VulnerabilityOf(rfc3339, bomRef, issue);
      v.bomRef == bomRef && v.id == issue.id.GetOr("") && v.description == issue.title.GetOr("")
      && v.detail == issue.description.GetOr("")
      && (issue.problems.None? ==> v.cwes.None? && v.references.None?)
      && |Elems(v.ratings)| == |Elems(issue.severities)|
      && |Elems(v.advisories)| == |Elems(issue.slotReferences)|
  {
  }

  /** The fields the issue loop body copies when they are set: id, title,
      description and the two timestamps; the lists stay nil. */
  method IssueHeader(rfc3339: Time -> string, bomRef: string, issue: Issue) returns (v: Vulnerability)
    ensures v == EmptyVulnerability(bomRef).(id := issue.id.GetOr(""), description := issue.title.GetOr(""),
      detail := issue.description.GetOr(""), created := SnykCdx.TimeOr(rfc3339, issue.createdAt),
      updated := SnykCdx.TimeOr(rfc3339, issue.updatedAt))
  {
    v := EmptyVulnerability(bomRef);
    if issue.id.Some? { v := v.(id := issue.id.value); }
    if issue.title.Some? { v := v.(description := issue.title.value); }
    if issue.description.Some? { v := v.(detail := issue.description.value); }
    if issue.createdAt.Some? { v := v.(created := rfc3339(issue.createdAt.value)); }
    if issue.updatedAt.Some? { v := v.(updated := rfc3339(issue.updatedAt.value)); }
  }

  /** The issue loop body: one vulnerability, with the problem, reference
      and severity loops. */
  method IssueToVulnerability(rfc3339: Time -> string, bomRef: string, issue: Issue) returns (v: Vulnerability)
    requires Readable(issue)
    ensures v == VulnerabilityOf(rfc3339, bomRef, issue)
  {
    v := IssueHeader(rfc3339, bomRef, issue);
    if issue.problems.Some? {
      var cwes, refs := MapProblems(issue.problems.value);
      v := v.(cwes := cwes, references := refs);
    } else {
      assert Cwes([]) == [] && References([]) == [];
    }
    var ads := MapAdvisories(issue.slotReferences);
    v := v.(advisories := ads);
    var ratings := MapRatings(Elems(issue.severities));
    v := v.(ratings := ratings);
  }

  // ----- the component map -----

  /** A component as a key of the Go map. A cdx.Component key compares its
      scalar fields by value and its pointer fields by address, and decoding
      gives every element of the list pointers of its own. So a component
      with a pointer set is a key of its own, named by its position, and
      components without pointers are one key exactly when they are equal.
      Both kinds carry the component, whose BOM ref the vulnerabilities
      name. */
  datatype MapKey = ByValue(c: Component) | ByElement(index: nat, c: Component)

  /** The key under which the goroutine for element i files its answer. */
  function MapKeyOf(c: Component, i: nat): MapKey {
    if PointersNil(c) then ByValue(c) else ByElement(i, c)
  }

  /** Go's key equality: two listed components share a key exactly when
      they are equal and either hold no pointer or are the same element. */
  lemma SameKey(c: Component, i: nat, d: Component, j: nat)
    ensures MapKeyOf(c, i) == MapKeyOf(d, j) <==> c == d && (PointersNil(c) || i == j)
  {
  }

  /** The keys of the map, in the order they were first filed: the key of
      each component with issues, once. */
  function Keys(env: SnykEnv, comps: seq<Component>): seq<MapKey>
    decreases |comps|
  {
    if |comps| == 0 then []
    else
      var n := |comps| - 1;
      var rest := Keys(env, comps[..n]);
      var k := MapKeyOf(comps[n], n);
      if IssuesOf(env, comps[n]).Some? && k !in rest then rest + [k] else rest
  }

  /** Every key was filed by a listed component with issues; the lemma
      names it. */
  lemma {:induction false} KeysFrom(env: SnykEnv, comps: seq<Component>, k: MapKey) returns (j: int)
    requires k in Keys(env, comps)
    ensures 0 <= j < |comps| && MapKeyOf(comps[j], j) == k && IssuesOf(env, comps[j]).Some?
    decreases |comps|
  {
    var n := |comps| - 1;
    var pre := comps[..n];
    if k in Keys(env, pre) {
      j := KeysFrom(env, pre, k);
      assert comps[j] == pre[j];
    } else {
      j := n;
    }
  }

  /** Every listed component with issues has its key filed. */
  lemma {:induction false} KeysHas(env: SnykEnv, comps: seq<Component>, j: int)
    requires 0 <= j < |comps| && IssuesOf(env, comps[j]).Some?
    ensures MapKeyOf(comps[j], j) in Keys(env, comps)
    decreases |comps|
  {
    var n := |comps| - 1;
    var pre := comps[..n];
    if j < n {
      assert comps[j] == pre[j];
      KeysHas(env, pre, j);
    }
  }

  /** A key is filed exactly when a listed component with issues is filed
      under it. */
  lemma KeysMembers(env: SnykEnv, comps: seq<Component>, k: MapKey)
    ensures k in Keys(env, comps) <==> exists j :: 0 <= j < |comps| && MapKeyOf(comps[j], j) == k && IssuesOf(env, comps[j]).Some?
  {
    if k in Keys(env, comps) {
      var j := KeysFrom(env, comps, k);
    }
    if exists j :: 0 <= j < |comps| && MapKeyOf(comps[j], j) == k && IssuesOf(env, comps[j]).Some? {
      var j :| 0 <= j < |comps| && MapKeyOf(comps[j], j) == k && IssuesOf(env, comps[j]).Some?;
      KeysHas(env, comps, j);
    }
  }

  /** No key is filed twice. */
  lemma {:induction false} KeysDistinct(env: SnykEnv, comps: seq<Component>)
    ensures forall i, j :: 0 <= i < j < |Keys(env, comps)| ==> Keys(env, comps)[i] != Keys(env, comps)[j]
    decreases |comps|
  {
    if |comps| > 0 {
      KeysDistinct(env, comps[..|comps| - 1]);
    }
  }

  /** Two listed components with issues are filed apart when the later one
      holds a pointer, however equal their fields are. */
  lemma PointerHoldersApart(env: SnykEnv, comps: seq<Component>, i: int, j: int)
    requires 0 <= i < j < |comps| && IssuesOf(env, comps[i]).Some? && IssuesOf(env, comps[j]).Some?
    requires !PointersNil(comps[j])
    ensures MapKeyOf(comps[i], i) in Keys(env, comps) && MapKeyOf(comps[j], j) in Keys(env, comps)
    ensures MapKeyOf(comps[i], i) != MapKeyOf(comps[j], j)
  {
    KeysHas(env, comps, i);
    KeysHas(env, comps, j);
  }

  /** The fetch loop: the map holds, for every key, the issues of the
      component it carries, and the keys list says in which order the keys
      were first filed. A key met again is filed again with the same
      answer. */
  method FetchIssues(env: SnykEnv, comps: seq<Component>) returns (keys: seq<MapKey>, data: map<MapKey, seq<Issue>>)
    ensures keys == Keys(env, comps)
    ensures forall k :: k in data <==> k in keys
    ensures forall k :: k in data ==> IssuesOf(env, k.c) == Some(data[k])
  {
    keys, data := [], map[];
    var i := 0;
    while i < |comps|
      invariant 0 <= i <= |comps|
      invariant keys == Keys(env, comps[..i])
      invariant forall k :: k in data <==> k in keys
      invariant forall k :: k in data ==> IssuesOf(env, k.c) == Some(data[k])
    {
      var component := comps[i];
      assert comps[..i + 1][..i] == comps[..i];
      var key := MapKeyOf(component, i);
      var answer := env.fetch(ParseOrZero(env.codec, component.packageURL));
      if answer.Ok? && answer.value.Some? {
        if key !in data {
          keys := keys + [key];
        }
        data := data[key := answer.value.value];
      }
      i := i + 1;
    }
    assert comps[..i] == comps;
  }

  /** The vulnerabilities of one component's issues: one per issue, in
      order. */
  function IssueVulns(rfc3339: Time -> string, bomRef: string, issues: seq<Issue>): (r: seq<Vulnerability>)
    requires forall i :: 0 <= i < |issues| ==> Readable(issues[i])
    ensures |r| == |issues|
    ensures forall i :: 0 <= i < |issues| ==> r[i] == VulnerabilityOf(rfc3339, bomRef, issues[i])
  {
    seq(|issues|, i requires 0 <= i < |issues| && Readable(issues[i]) => VulnerabilityOf(rfc3339, bomRef, issues[i]))
  }

  /** One more issue adds its vulnerability at the end. */
  lemma IssueVulnsSnoc(rfc3339: Time -> string, bomRef: string, issues: seq<Issue>, i: int)
    requires 0 <= i < |issues| && forall j :: 0 <= j < |issues| ==> Readable(issues[j])
    ensures IssueVulns(rfc3339, bomRef, issues[..i + 1])
      == IssueVulns(rfc3339, bomRef, issues[..i]) + [VulnerabilityOf(rfc3339, bomRef, issues[i])]
  {
    var a, b := IssueVulns(rfc3339, bomRef, issues[..i + 1]), IssueVulns(rfc3339, bomRef, issues[..i]);
    assert forall j :: 0 <= j < i ==> a[j] == b[j];
  }

  /** Every issue of every key is readable. */
  predicate KeysReadable(env: SnykEnv, keys: seq<MapKey>) {
    forall k :: 0 <= k < |keys| ==> IssuesReadable(env, keys[k].c)
  }

  /** Every key's component has issues. */
  predicate KeysAnswered(env: SnykEnv, keys: seq<MapKey>) {
    forall k :: 0 <= k < |keys| ==> IssuesOf(env, keys[k].c).Some?
  }

  /** The vulnerabilities of the keys, key by key. */
  function KeyVulns(env: SnykEnv, keys: seq<MapKey>): seq<Vulnerability>
    requires KeysAnswered(env, keys) && KeysReadable(env, keys)
    decreases |keys|
  {
    if |keys| == 0 then []
    else
      var k := keys[|keys| - 1].c;
      KeyVulns(env, keys[..|keys| - 1]) + IssueVulns(env.rfc3339, k.bomRef, IssuesOf(env, k).value)
  }

  /** One more key adds its issues' vulnerabilities at the end. */
  lemma KeyVulnsSnoc(env: SnykEnv, keys: seq<MapKey>, k: int)
    requires KeysAnswered(env, keys) && KeysReadable(env, keys)
    requires 0 <= k < |keys|
    ensures KeyVulns(env, keys[..k + 1])
      == KeyVulns(env, keys[..k]) + IssueVulns(env.rfc3339, keys[k].c.bomRef, IssuesOf(env, keys[k].c).value)
  {
    assert keys[..k + 1][..k] == keys[..k];
  }

  /** The component has issues and one of them gives v. */
  predicate Gives(env: SnykEnv, c: Component, v: Vulnerability)
    requires IssuesReadable(env, c)
  {
    IssuesOf(env, c).Some? &&
    exists i :: 0 <= i < |IssuesOf(env, c).value| && v == VulnerabilityOf(env.rfc3339, c.bomRef, IssuesOf(env, c).value[i])
  }

  /** Every issue of every key gives its vulnerability. */
  lemma {:induction false} KeyVulnsHas(env: SnykEnv, keys: seq<MapKey>, k: int, i: int)
    requires KeysAnswered(env, keys) && KeysReadable(env, keys)
    requires 0 <= k < |keys| && 0 <= i < |IssuesOf(env, keys[k].c).value|
    ensures VulnerabilityOf(env.rfc3339, keys[k].c.bomRef, IssuesOf(env, keys[k].c).value[i]) in KeyVulns(env, keys)
    decreases |keys|
  {
    var n := |keys| - 1;
    var pre := keys[..n];
    assert keys[..n + 1] == keys;
    KeyVulnsSnoc(env, keys, n);
    if k < n {
      assert keys[k] == pre[k];
      KeyVulnsHas(env, pre, k, i);
    } else {
      var last := IssueVulns(env.rfc3339, keys[n].c.bomRef, IssuesOf(env, keys[n].c).value);
      assert last[i] == VulnerabilityOf(env.rfc3339, keys[k].c.bomRef, IssuesOf(env, keys[k].c).value[i]);
    }
  }

  /** A vulnerability of the keys comes from an issue of one of them; the
      lemma names the key and the issue. */
  lemma {:induction false} KeyVulnsFrom(env: SnykEnv, keys: seq<MapKey>, v: Vulnerability) returns (k: int, i: int)
    requires KeysAnswered(env, keys) && KeysReadable(env, keys)
    requires v in KeyVulns(env, keys)
    ensures 0 <= k < |keys| && 0 <= i < |IssuesOf(env, keys[k].c).value|
    ensures v == VulnerabilityOf(env.rfc3339, keys[k].c.bomRef, IssuesOf(env, keys[k].c).value[i])
    decreases |keys|
  {
    var n := |keys| - 1;
    var pre := keys[..n];
    assert keys[..n + 1] == keys;
    KeyVulnsSnoc(env, keys, n);
    var last := IssueVulns(env.rfc3339, keys[n].c.bomRef, IssuesOf(env, keys[n].c).value);
    if v in KeyVulns(env, pre) {
      k, i := KeyVulnsFrom(env, pre, v);
      assert keys[k] == pre[k];
    } else {
      k := n;
      i :| 0 <= i < |last| && last[i] == v;
    }
  }

  /** The keys carry components with readable issues when every listed
      component's issues are readable. */
  lemma KeysReadableFrom(env: SnykEnv, comps: seq<Component>)
    requires forall i :: 0 <= i < |comps| ==> IssuesReadable(env, comps[i])
    ensures KeysAnswered(env, Keys(env, comps)) && KeysReadable(env, Keys(env, comps))
  {
    var keys := Keys(env, comps);
    forall k | 0 <= k < |keys|
      ensures IssuesOf(env, keys[k].c).Some? && IssuesReadable(env, keys[k].c)
    {
      var j := KeysFrom(env, comps, keys[k]);
    }
  }

  /** The vulnerabilities EnrichSBOMWithSnyk writes for the components. */
  function SnykVulns(env: SnykEnv, comps: seq<Component>): seq<Vulnerability>
    requires forall i :: 0 <= i < |comps| ==> IssuesReadable(env, comps[i])
  {
    KeysReadableFrom(env, comps);
    KeyVulns(env, Keys(env, comps))
  }

  /** A vulnerability is written exactly when some listed component has an
      issue that gives it. */
  lemma SnykVulnsMembers(env: SnykEnv, comps: seq<Component>, v: Vulnerability)
    requires forall i :: 0 <= i < |comps| ==> IssuesReadable(env, comps[i])
    ensures v in SnykVulns(env, comps) <==> exists j :: 0 <= j < |comps| && Gives(env, comps[j], v)
  {
    if v in SnykVulns(env, comps) {
      SnykVulnsFrom(env, comps, v);
    }
    if exists j :: 0 <= j < |comps| && Gives(env, comps[j], v) {
      var j :| 0 <= j < |comps| && Gives(env, comps[j], v);
      SnykVulnsHas(env, comps, j, v);
    }
  }

  /** The left-to-right half of SnykVulnsMembers. */
  lemma SnykVulnsFrom(env: SnykEnv, comps: seq<Component>, v: Vulnerability)
    requires forall i :: 0 <= i < |comps| ==> IssuesReadable(env, comps[i])
    requires v in SnykVulns(env, comps)
    ensures exists j :: 0 <= j < |comps| && Gives(env, comps[j], v)
  {
    var keys := Keys(env, comps);
    KeysReadableFrom(env, comps);
    var k, i := KeyVulnsFrom(env, keys, v);
    var j := KeysFrom(env, comps, keys[k]);
    assert Gives(env, comps[j], v);
  }

  /** The right-to-left half of SnykVulnsMembers. */
  lemma SnykVulnsHas(env: SnykEnv, comps: seq<Component>, j: int, v: Vulnerability)
    requires forall i :: 0 <= i < |comps| ==> IssuesReadable(env, comps[i])
    requires 0 <= j < |comps| && Gives(env, comps[j], v)
    ensures v in SnykVulns(env, comps)
  {
    var keys := Keys(env, comps);
    KeysReadableFrom(env, comps);
    KeysHas(env, comps, j);
    var k :| 0 <= k < |keys| && keys[k] == MapKeyOf(comps[j], j);
    var i :| 0 <= i < |IssuesOf(env, comps[j]).value|
      && v == VulnerabilityOf(env.rfc3339, comps[j].bomRef, IssuesOf(env, comps[j]).value[i]);
    KeyVulnsHas(env, keys, k, i);
  }

  /** The keys filed for a component listed twice with issues. */
  lemma KeysTwice(env: SnykEnv, c: Component)
    requires IssuesOf(env, c).Some?
    ensures Keys(env, [c, c]) == if PointersNil(c) then [ByValue(c)] else [ByElement(0, c), ByElement(1, c)]
  {
    assert [c, c][..1] == [c] && [c][..0] == [];
    assert Keys(env, [c]) == [MapKeyOf(c, 0)];
  }

  /** The vulnerabilities of one key, or of the same component's issues
      under two keys. */
  lemma KeyVulnsRepeated(env: SnykEnv, k: MapKey, k': MapKey)
    requires k.c == k'.c && IssuesReadable(env, k.c) && IssuesOf(env, k.c).Some?
    ensures var vs := IssueVulns(env.rfc3339, k.c.bomRef, IssuesOf(env, k.c).value);
      KeyVulns(env, [k]) == vs && KeyVulns(env, [k, k']) == vs + vs
  {
    assert [k][..0] == [] && [k, k'][..1] == [k];
  }

  /** A component listed twice: with a pointer set it is two keys and its
      vulnerabilities are written twice; with none it is one key and they
      are written once. */
  lemma ListedTwice(env: SnykEnv, c: Component)
    requires IssuesReadable(env, c) && IssuesOf(env, c).Some?
    ensures var vs := IssueVulns(env.rfc3339, c.bomRef, IssuesOf(env, c).value);
      SnykVulns(env, [c, c]) == if PointersNil(c) then vs else vs + vs
  {
    KeysTwice(env, c);
    if PointersNil(c) {
      KeyVulnsRepeated(env, ByValue(c), ByValue(c));
    } else {
      KeyVulnsRepeated(env, ByElement(0, c), ByElement(1, c));
    }
  }

  /** The loop over the map: each key's issues, one vulnerability per issue. */
  method EmitVulnerabilities(env: SnykEnv, keys: seq<MapKey>, data: map<MapKey, seq<Issue>>) returns (vulns: seq<Vulnerability>)
    requires forall k :: 0 <= k < |keys| ==> keys[k] in data && IssuesOf(env, keys[k].c) == Some(data[keys[k]])
    requires KeysReadable(env, keys)
    ensures KeysAnswered(env, keys) && vulns == KeyVulns(env, keys)
  {
    vulns := [];
    var k := 0;
    while k < |keys|
      invariant 0 <= k <= |keys|
      invariant vulns == KeyVulns(env, keys[..k])
    {
      var key := keys[k].c;
      var issues := data[keys[k]];
      assert IssuesReadable(env, key);
      KeyVulnsSnoc(env, keys, k);
      var i := 0;
      ghost var before := vulns;
      while i < |issues|
        invariant 0 <= i <= |issues|
        invariant vulns == before + IssueVulns(env.rfc3339, key.bomRef, issues[..i])
      {
        var vuln := IssueToVulnerability(env.rfc3339, key.bomRef, issues[i]);
        IssueVulnsSnoc(env.rfc3339, key.bomRef, issues, i);
        ConcatAssoc(before, IssueVulns(env.rfc3339, key.bomRef, issues[..i]), [vuln]);
        vulns := vulns + [vuln];
        i := i + 1;
      }
      assert issues[..i] == issues;
      k := k + 1;
    }
    assert keys[..k] == keys;
  }

  /** EnrichSBOMWithSnyk: nil components leave the BOM as it is; otherwise
      the vulnerabilities are replaced by those of the components' issues
      (an empty list when there are none), and nothing else changes. */
  method EnrichSBOMWithSnyk(env: SnykEnv, bom: Bom) returns (r: Bom)
    requires bom.components.Some? ==> forall i :: 0 <= i < |bom.components.value| ==> IssuesReadable(env, bom.components.value[i])
    ensures bom.components.None? ==> r == bom
    ensures bom.components.Some? ==> r == bom.(vulnerabilities := Some(SnykVulns(env, bom.components.value)))
  {
    if bom.components.None? {
      return bom;
    }
    var comps := bom.components.value;
    var keys, data := FetchIssues(env, comps);
    KeysReadableFrom(env, comps);
    var vulns := EmitVulnerabilities(env, keys, data);
    r := bom.(vulnerabilities := Some(vulns));
  }
}
