/** The deps.dev enricher for CycloneDX documents (lib/deps/enrich_cyclonedx.go):
    each component's repository is found (its first "vcs" reference, or
    deps.dev's answer for its purl), the repository's deps.dev project is
    fetched through a shared cache, and the project's counts, licence,
    description, homepage and scorecard become "deps:" properties. Nested
    components are enriched the same way, recursively.

    The enrichers take and return components by value; the source appends
    through the shared Properties pointer, which also changes the input
    array that the enricher then replaces, so the values here show the
    same result. Goroutines each write their own slot, so the components
    are enriched one after another. */
module DepsCdx {
  import opened Base
  import opened GoStrings
  import opened GoUrl
  import opened Cdx
  import opened DepsRepo

  /** The oracles: URL parsing and escaping, the two deps.dev endpoints,
      and fmt's "%.2f" rendering of a score. */
  datatype Env = Env(
    lib: UrlLib,
    queryEscape: string -> string,
    pathEscape: string -> string,
    getProject: string -> HttpResult<Project>,
    getVersion: string -> HttpResult<PackageVersion>,
    formatScore: real -> string)

  /** The seven property enrichers. */
  datatype Enricher = EnrichOpenIssues | EnrichStars | EnrichForks | EnrichLicense | EnrichDescription | EnrichHomepage | EnrichScorecard

  /** The list enrichCDX passes, in its order. */
  const EnrichFuncs: seq<Enricher> := [EnrichOpenIssues, EnrichStars, EnrichForks, EnrichLicense, EnrichDescription, EnrichHomepage, EnrichScorecard]

  // ----- the property enrichers -----

  /** enrichProperty: the property goes after the existing ones (a nil list
      becomes a one-element list); nothing else changes. */
  function EnrichProperty(c: Component, name: string, value: string): (r: Component)
    ensures r.properties == Some(Elems(c.properties) + [Property(name, value)])
    ensures r.(properties := c.properties) == c
  {
    c.(properties := Append(c.properties, Property(name, value)))
  }

  /** The name of the property an enricher writes. */
  function Name(f: Enricher): string {
    match f
    case EnrichOpenIssues => "deps:open_issues_count"
    case EnrichStars => "deps:stars_count"
    case EnrichForks => "deps:forks_count"
    case EnrichLicense => "deps:license"
    case EnrichDescription => "deps:description"
    case EnrichHomepage => "deps:homepage"
    case EnrichScorecard => "deps:scorecard"
  }

  /** The count a count enricher reads. */
  function Count(f: Enricher, proj: Project): Option<int> {
    match f
    case EnrichOpenIssues => proj.openIssuesCount
    case EnrichStars => proj.starsCount
    case EnrichForks => proj.forksCount
    case _ => None
  }

  /** The value an enricher writes, or None when the project field it reads
      is nil (for the scorecard: the scorecard or its overall score). */
  function Value(f: Enricher, proj: Project, formatScore: real -> string): Option<string> {
    match f
    case EnrichOpenIssues | EnrichStars | EnrichForks =>
      if Count(f, proj).Some? then Some(Itoa(Count(f, proj).value)) else None
    case EnrichLicense => proj.license
    case EnrichDescription => proj.description
    case EnrichHomepage => proj.homepage
    case EnrichScorecard =>
      if proj.scorecard.Some? && proj.scorecard.value.overallScore.Some?
      then Some(formatScore(proj.scorecard.value.overallScore.value)) else None
  }

  /** The property an enricher adds, if any. */
  function Added(f: Enricher, proj: Project, formatScore: real -> string): seq<Property> {
    match Value(f, proj, formatScore)
    case None => []
    case Some(v) => [Property(Name(f), v)]
  }

  /** One enricher applied to a component. */
  function Apply(f: Enricher, c: Component, proj: Project, formatScore: real -> string): Component {
    match Value(f, proj, formatScore)
    case None => c
    case Some(v) => EnrichProperty(c, Name(f), v)
  }

  /** Each enricher writes a property of its own name. */
  lemma NamesDistinct(f: Enricher, g: Enricher)
    requires f != g
    ensures Name(f) != Name(g)
  {
  }

  /** The count properties are the decimal form of the count: they read
      back as the count. */
  lemma CountsRoundTrip(f: Enricher, proj: Project, formatScore: real -> string)
    requires Count(f, proj).Some? && InInt64(Count(f, proj).value)
    ensures Value(f, proj, formatScore).Some?
    ensures ParseInt64(Value(f, proj, formatScore).value) == Count(f, proj)
  {
    ParseItoa(Count(f, proj).value);
  }

  /** The properties a list of enrichers adds, in list order. */
  function AddedAll(fs: seq<Enricher>, proj: Project, formatScore: real -> string): seq<Property>
    decreases |fs|
  {
    if |fs| == 0 then [] else AddedAll(fs[..|fs| - 1], proj, formatScore) + Added(fs[|fs| - 1], proj, formatScore)
  }

  /** The enrichers applied one after another, as enrichComponentRecursive
      does. */
  function ApplyAll(fs: seq<Enricher>, c: Component, proj: Project, formatScore: real -> string): Component
    decreases |fs|
  {
    if |fs| == 0 then c else Apply(fs[|fs| - 1], ApplyAll(fs[..|fs| - 1], c, proj, formatScore), proj, formatScore)
  }

  /** Running the enrichers only appends properties: the existing ones
      stay first, the new ones follow in enricher order, and a nil list
      stays nil when nothing is added. */
  lemma {:induction false} ApplyAllAppends(fs: seq<Enricher>, c: Component, proj: Project, formatScore: real -> string)
    ensures ApplyAll(fs, c, proj, formatScore).(properties := c.properties) == c
    ensures ApplyAll(fs, c, proj, formatScore).properties ==
      if AddedAll(fs, proj, formatScore) == [] then c.properties else Some(Elems(c.properties) + AddedAll(fs, proj, formatScore))
    decreases |fs|
  {
    if |fs| > 0 {
      var pre := fs[..|fs| - 1];
      ApplyAllAppends(pre, c, proj, formatScore);
      var f := fs[|fs| - 1];
      var prev := ApplyAll(pre, c, proj, formatScore);
      assert Elems(prev.properties) == Elems(c.properties) + AddedAll(pre, proj, formatScore);
      if Value(f, proj, formatScore).Some? {
        assert Elems(c.properties) + AddedAll(pre, proj, formatScore) + Added(f, proj, formatScore)
          == Elems(c.properties) + AddedAll(fs, proj, formatScore);
      } else {
        assert Added(f, proj, formatScore) == [];
        assert AddedAll(fs, proj, formatScore) == AddedAll(pre, proj, formatScore);
        assert ApplyAll(fs, c, proj, formatScore) == prev;
      }
    }
  }

  /** With every field present, the seven properties come in the order
      open issues, stars, forks, licence, description, homepage, scorecard. */
  lemma EnrichFuncsOrder(proj: Project, formatScore: real -> string)
    requires proj.openIssuesCount.Some? && proj.starsCount.Some? && proj.forksCount.Some?
    requires proj.license.Some? && proj.description.Some? && proj.homepage.Some?
    requires proj.scorecard.Some? && proj.scorecard.value.overallScore.Some?
    ensures |AddedAll(EnrichFuncs, proj, formatScore)| == 7
    ensures forall i :: 0 <= i < 7 ==> AddedAll(EnrichFuncs, proj, formatScore)[i].name == Name(EnrichFuncs[i])
  {
    AllPresent(EnrichFuncs, proj, formatScore);
  }

  /** When every enricher finds its field, each adds one property, in list
      order. */
  lemma {:induction false} AllPresent(fs: seq<Enricher>, proj: Project, formatScore: real -> string)
    requires forall i :: 0 <= i < |fs| ==> Value(fs[i], proj, formatScore).Some?
    ensures |AddedAll(fs, proj, formatScore)| == |fs|
    ensures forall i :: 0 <= i < |fs| ==> AddedAll(fs, proj, formatScore)[i].name == Name(fs[i])
    decreases |fs|
  {
    if |fs| > 0 {
      var pre, f := fs[..|fs| - 1], fs[|fs| - 1];
      assert forall i :: 0 <= i < |pre| ==> pre[i] == fs[i];
      AllPresent(pre, proj, formatScore);
      var a := Added(f, proj, formatScore);
      assert |a| == 1 && a[0].name == Name(f);
      var prev := AddedAll(pre, proj, formatScore);
      var all := AddedAll(fs, proj, formatScore);
      assert all == prev + a;
      forall i | 0 <= i < |fs| ensures all[i].name == Name(fs[i]) {
        if i < |pre| {
          assert all[i] == prev[i] && fs[i] == pre[i];
        }
      }
    }
  }

  /** The enricher loop. */
  method RunEnrichers(fs: seq<Enricher>, c: Component, proj: Project, formatScore: real -> string) returns (r: Component)
    ensures r == ApplyAll(fs, c, proj, formatScore)
  {
    r := c;
    var i := 0;
    while i < |fs|
      invariant 0 <= i <= |fs|
      invariant r == ApplyAll(fs[..i], c, proj, formatScore)
    {
      assert fs[..i + 1][..i] == fs[..i];
      r := Apply(fs[i], r, proj, formatScore);
      i := i + 1;
    }
    assert fs[..|fs|] == fs;
  }

  // ----- the repository of a component -----

  /** The URL of the first reference of type "vcs". */
  function FirstVcs(refs: seq<ExternalReference>): (r: Option<string>)
    ensures r.None? <==> forall i :: 0 <= i < |refs| ==> refs[i].refType != ERTypeVCS
    ensures r.Some? ==> exists i :: (0 <= i < |refs| && refs[i].refType == ERTypeVCS && r.value == refs[i].url
      && forall j :: 0 <= j < i ==> refs[j].refType != ERTypeVCS)
    decreases |refs|
  {
    if |refs| == 0 then None
    else if refs[0].refType == ERTypeVCS then Some(refs[0].url)
    else
      var r := FirstVcs(refs[1..]);
      assert forall i :: 1 <= i < |refs| ==> refs[i] == refs[1..][i - 1];
      if r.Some? then
        var i :| 0 <= i < |refs[1..]| && refs[1..][i].refType == ERTypeVCS && r.value == refs[1..][i].url
          && forall j :: 0 <= j < i ==> refs[1..][j].refType != ERTypeVCS;
        assert refs[i + 1] == refs[1..][i];
        r
      else r
  }

  /** The loop over the references, stopping at the first "vcs" one. */
  method FindVcs(refs: seq<ExternalReference>) returns (repoURL: string, found: bool)
    ensures found <==> FirstVcs(refs).Some?
    ensures repoURL == FirstVcs(refs).GetOr("")
  {
    repoURL, found := "", false;
    var i := 0;
    while i < |refs|
      invariant 0 <= i <= |refs|
      invariant FirstVcs(refs[i..]) == FirstVcs(refs)
    {
      if refs[i].refType == ERTypeVCS {
        repoURL, found := refs[i].url, true;
        return;
      }
      assert refs[i..][1..] == refs[i + 1..];
      i := i + 1;
    }
  }

  /** The repository URL of a component, if one was found: its first "vcs"
      reference; only when there is none, and the component has a purl,
      the repository deps.dev gives for the purl. */
  function RepoURL(env: Env, c: Component): (r: Option<string>)
    ensures FirstVcs(Elems(c.externalReferences)).Some? ==> r == FirstVcs(Elems(c.externalReferences))
    ensures FirstVcs(Elems(c.externalReferences)).None? && c.packageURL == "" ==> r.None?
    ensures FirstVcs(Elems(c.externalReferences)).None? && c.packageURL != "" ==>
      (r.Some? <==> RepoURLFromPackage(env.pathEscape, env.getVersion, c.packageURL).Ok?)
      && (r.Some? ==> r.value == RepoURLFromPackage(env.pathEscape, env.getVersion, c.packageURL).value)
  {
    match FirstVcs(Elems(c.externalReferences))
    case Some(u) => Some(u)
    case None =>
      if c.packageURL == "" then None
      else match RepoURLFromPackage(env.pathEscape, env.getVersion, c.packageURL)
        case Ok(u) => Some(u)
        case Err(_) => None
  }

  /** The deps.dev project a component is enriched with, if any: none
      without a non-empty repository URL, and none when the lookup fails. */
  function ProjectOf(env: Env, c: Component): Option<Project> {
    match RepoURL(env, c)
    case None => None
    case Some(u) =>
      if u == "" then None
      else match FetchProject(env.getProject, env.queryEscape, NormalizeRepoURL(env.lib, u))
        case Ok(proj) => Some(proj)
        case Err(_) => None
  }

  /** A component with its own fields enriched. Without a project it is
      untouched; with one, only its properties change: the existing ones
      stay and the new ones follow. */
  function EnrichedOwn(env: Env, fs: seq<Enricher>, c: Component): (r: Component)
    ensures ProjectOf(env, c).None? ==> r == c
    ensures r.(properties := c.properties) == c
    ensures |Elems(c.properties)| <= |Elems(r.properties)| && Elems(r.properties)[..|Elems(c.properties)|] == Elems(c.properties)
  {
    match ProjectOf(env, c)
    case None => c
    case Some(proj) =>
      ApplyAllAppends(fs, c, proj, env.formatScore);
      ApplyAll(fs, c, proj, env.formatScore)
  }

  /** enrichComponentRecursive as a specification: the component's own
      fields, then each nested component in turn. */
  function Enriched(env: Env, fs: seq<Enricher>, c: Component): Component
    decreases c, 1
  {
    var own := EnrichedOwn(env, fs, c);
    match c.components
    case NilList => own
    case List(cs) => own.(components := List(EnrichedList(env, fs, c)))
  }

  /** The nested components of c, each enriched. */
  function EnrichedList(env: Env, fs: seq<Enricher>, c: Component): (r: seq<Component>)
    ensures |r| == |Children(c)|
    decreases c, 0
  {
    var cs := Children(c);
    seq(|cs|, i requires 0 <= i < |cs| => Enriched(env, fs, c.components.items[i]))
  }

  /** The component's own fields are those EnrichedOwn gives; the nested
      list keeps its length and order, whatever happened to the parent,
      and a nil list stays nil. */
  lemma EnrichedShape(env: Env, fs: seq<Enricher>, c: Component)
    ensures Own(Enriched(env, fs, c)) == Own(EnrichedOwn(env, fs, c))
    ensures Enriched(env, fs, c).components.NilList? <==> c.components.NilList?
    ensures |Children(Enriched(env, fs, c))| == |Children(c)|
  {
  }

  /** Nested component i of the result is nested component i of the input,
      enriched. */
  lemma ChildrenInOrder(env: Env, fs: seq<Enricher>, c: Component, i: int)
    requires 0 <= i < |Children(c)|
    ensures Children(Enriched(env, fs, c))[i] == Enriched(env, fs, Children(c)[i])
  {
  }

  // ----- the code -----

  /** The search for the repository URL in enrichComponentRecursive: the
      first "vcs" reference, otherwise deps.dev's answer for the purl. */
  method FindRepoURL(env: Env, c: Component) returns (repoURL: string, foundVCS: bool)
    ensures foundVCS <==> RepoURL(env, c).Some?
    ensures foundVCS ==> repoURL == RepoURL(env, c).value
  {
    repoURL, foundVCS := "", false;
    if c.externalReferences.Some? {
      repoURL, foundVCS := FindVcs(c.externalReferences.value);
    }
    if !foundVCS && c.packageURL != "" {
      var url, _ := GetRepoURLFromPackage(env.pathEscape, env.getVersion, c.packageURL);
      if url.Ok? {
        repoURL, foundVCS := url.value, true;
      }
    }
  }

  /** The part of enrichComponentRecursive before the nested components:
      find the repository, fetch its project through the cache, run the
      enrichers. */
  method EnrichOwn(env: Env, fs: seq<Enricher>, c: Component, cache: ProjectCache) returns (component: Component)
    requires Faithful(cache.data, env.getProject, env.queryEscape)
    modifies cache
    ensures component == EnrichedOwn(env, fs, c)
    ensures Faithful(cache.data, env.getProject, env.queryEscape)
  {
    var repoURL, foundVCS := FindRepoURL(env, c);
    component := c;
    if foundVCS && repoURL != "" {
      var proj, _ := GetRepoDataWithCache(env.lib, env.queryEscape, env.getProject, repoURL, cache);
      if proj.Ok? {
        component := RunEnrichers(fs, component, proj.value, env.formatScore);
      }
    }
  }

  /** enrichComponentRecursive. With a cache that holds only deps.dev's own
      answers, the result is Enriched; the cache keeps that property. */
  method EnrichComponentRecursive(env: Env, fs: seq<Enricher>, c: Component, cache: ProjectCache) returns (r: Component)
    requires Faithful(cache.data, env.getProject, env.queryEscape)
    modifies cache
    ensures r == Enriched(env, fs, c)
    ensures Faithful(cache.data, env.getProject, env.queryEscape)
    decreases c, 1
  {
    r := EnrichOwn(env, fs, c, cache);
    if c.components.List? {
      var newChildren := EnrichChildren(env, fs, c, cache);
      r := r.(components := List(newChildren));
    }
  }

  /** The loop over the nested components, filling slot i of a list of the
      same length with nested component i enriched. */
  method EnrichChildren(env: Env, fs: seq<Enricher>, c: Component, cache: ProjectCache) returns (r: seq<Component>)
    requires c.components.List?
    requires Faithful(cache.data, env.getProject, env.queryEscape)
    modifies cache
    ensures r == EnrichedList(env, fs, c)
    ensures Faithful(cache.data, env.getProject, env.queryEscape)
    decreases c, 0
  {
    var children := c.components.items;
    r := children;
    var i := 0;
    while i < |children|
      invariant 0 <= i <= |children| && |r| == |children|
      invariant forall j :: 0 <= j < i ==> r[j] == Enriched(env, fs, children[j])
      invariant Faithful(cache.data, env.getProject, env.queryEscape)
    {
      var child := EnrichComponentRecursive(env, fs, children[i], cache);
      r := r[i := child];
      i := i + 1;
    }
  }

  /** The components of a list, each enriched. */
  function EnrichedAll(env: Env, fs: seq<Enricher>, cs: seq<Component>): (r: seq<Component>)
    ensures |r| == |cs| && forall i :: 0 <= i < |cs| ==> r[i] == Enriched(env, fs, cs[i])
  {
    seq(|cs|, i requires 0 <= i < |cs| => Enriched(env, fs, cs[i]))
  }

  /** enrichComponents: slot i of the new list is component i enriched. */
  method EnrichComponents(env: Env, fs: seq<Enricher>, comps: seq<Component>, cache: ProjectCache) returns (newComponents: seq<Component>)
    requires Faithful(cache.data, env.getProject, env.queryEscape)
    modifies cache
    ensures |newComponents| == |comps|
    ensures forall j :: 0 <= j < |comps| ==> newComponents[j] == Enriched(env, fs, comps[j])
    ensures Faithful(cache.data, env.getProject, env.queryEscape)
  {
    newComponents := comps;
    var i := 0;
    while i < |comps|
      invariant 0 <= i <= |comps| && |newComponents| == |comps|
      invariant forall j :: 0 <= j < i ==> newComponents[j] == Enriched(env, fs, comps[j])
      invariant Faithful(cache.data, env.getProject, env.queryEscape)
    {
      var enriched := EnrichComponentRecursive(env, fs, comps[i], cache);
      newComponents := newComponents[i := enriched];
      i := i + 1;
    }
  }

  /** enrichCDX: nothing for nil components; otherwise the top-level
      components, each with its subtree, are enriched with the seven
      enrichers in order, through one fresh cache. The metadata component
      and the vulnerabilities are not touched. */
  method EnrichCDX(env: Env, bom: Bom) returns (r: Bom)
    ensures bom.components.None? ==> r == bom
    ensures bom.components.Some? ==> r == bom.(components := Some(EnrichedAll(env, EnrichFuncs, bom.components.value)))
  {
    if bom.components.None? {
      return bom;
    }
    var cache := new ProjectCache();
    var newComponents := EnrichComponents(env, EnrichFuncs, bom.components.value, cache);
    assert newComponents == EnrichedAll(env, EnrichFuncs, bom.components.value);
    r := bom.(components := Some(newComponents));
  }
}
