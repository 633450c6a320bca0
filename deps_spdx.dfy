/** The deps.dev enricher for SPDX documents (lib/deps/enrich_spdx.go):
    each package's repository reference is found, the repository's deps.dev
    project is fetched through a shared cache, and the project's counts,
    licence, description, homepage and scorecard are appended to the
    package's external references as "deps:" references.

    The source appends through each package pointer from its own goroutine;
    here the packages are rewritten one after another, slot by slot. */
module DepsSpdx {
  import opened Base
  import opened GoStrings
  import opened GoUrl
  import opened Spdx
  import opened DepsRepo
  import DepsCdx

  /** The oracles: URL parsing and escaping, the deps.dev project
      endpoint, and fmt's "%.2f" rendering of a score. */
  datatype Env = Env(
    lib: UrlLib,
    queryEscape: string -> string,
    getProject: string -> HttpResult<Project>,
    formatScore: real -> string)

  // ----- the repository reference -----

  /** A reference that names the package's repository: any "vcs"
      reference, or a "url" reference on GitHub, GitLab or Bitbucket. */
  predicate IsRepoRef(ref: ExternalRef) {
    ref.refType == "vcs"
    || (ref.refType == "url"
        && (Contains(ref.locator, "github.com") || Contains(ref.locator, "gitlab.com") || Contains(ref.locator, "bitbucket.org")))
  }

  /** The locator of the first repository reference, if there is one. */
  function FirstRepoRef(refs: seq<ExternalRef>): (r: Option<string>)
    ensures r.None? <==> forall i :: 0 <= i < |refs| ==> !IsRepoRef(refs[i])
    ensures r.Some? ==> exists i :: (0 <= i < |refs| && IsRepoRef(refs[i]) && r.value == refs[i].locator
      && forall j :: 0 <= j < i ==> !IsRepoRef(refs[j]))
    decreases |refs|
  {
    if |refs| == 0 then None
    else if IsRepoRef(refs[0]) then Some(refs[0].locator)
    else
      var r := FirstRepoRef(refs[1..]);
      assert forall i :: 1 <= i < |refs| ==> refs[i] == refs[1..][i - 1];
      if r.Some? then
        var i :| 0 <= i < |refs[1..]| && IsRepoRef(refs[1..][i]) && r.value == refs[1..][i].locator
          && forall j :: 0 <= j < i ==> !IsRepoRef(refs[1..][j]);
        assert refs[i + 1] == refs[1..][i];
        r
      else r
  }

  /** The loop over the references, stopping at the first repository
      reference; "" when there is none. */
  method FindRepoURL(refs: seq<ExternalRef>) returns (repoURL: string)
    ensures repoURL == FirstRepoRef(refs).GetOr("")
  {
    repoURL := "";
    var i := 0;
    while i < |refs|
      invariant 0 <= i <= |refs|
      invariant FirstRepoRef(refs[i..]) == FirstRepoRef(refs)
    {
      if IsRepoRef(refs[i]) {
        repoURL := refs[i].locator;
        return;
      }
      assert refs[i..][1..] == refs[i + 1..];
      i := i + 1;
    }
  }

  // ----- the references a project contributes -----

  /** enrichSPDXExternalRef: one OTHER reference, typed by the property
      name, commented "deps.dev <name>", after the existing ones. */
  function EnrichExternalRef(p: Package, name: string, value: string): (q: Package)
    ensures q.externalRefs == p.externalRefs + [ExternalRef(CategoryOther, name, value, "deps.dev " + name)]
    ensures q.(externalRefs := p.externalRefs) == p
  {
    AddRef(p, ExternalRef(CategoryOther, name, value, "deps.dev " + name))
  }

  /** The value a project gives for one of the seven names, if the package
      receives that reference: counts whenever they are present, licence,
      description and homepage only when present and non-empty, and the
      scorecard when it has an overall score. */
  function Value(f: DepsCdx.Enricher, proj: Project, formatScore: real -> string): Option<string> {
    match f
    case EnrichOpenIssues | EnrichStars | EnrichForks =>
      if DepsCdx.Count(f, proj).Some? then Some(Itoa(DepsCdx.Count(f, proj).value)) else None
    case EnrichLicense => if proj.license.Some? && proj.license.value != "" then proj.license else None
    case EnrichDescription => if proj.description.Some? && proj.description.value != "" then proj.description else None
    case EnrichHomepage => if proj.homepage.Some? && proj.homepage.value != "" then proj.homepage else None
    case EnrichScorecard =>
      if proj.scorecard.Some? && proj.scorecard.value.overallScore.Some?
      then Some(formatScore(proj.scorecard.value.overallScore.value)) else None
  }

  /** The reference for one name: none, or one. */
  function RefFor(f: DepsCdx.Enricher, proj: Project, formatScore: real -> string): seq<ExternalRef> {
    match Value(f, proj, formatScore)
    case None => []
    case Some(v) => [ExternalRef(CategoryOther, DepsCdx.Name(f), v, "deps.dev " + DepsCdx.Name(f))]
  }

  /** The references a project contributes, in the order of the source's
      seven checks. */
  function ProjectRefs(proj: Project, formatScore: real -> string): seq<ExternalRef> {
    RefFor(DepsCdx.EnrichOpenIssues, proj, formatScore) + RefFor(DepsCdx.EnrichStars, proj, formatScore)
    + RefFor(DepsCdx.EnrichForks, proj, formatScore) + RefFor(DepsCdx.EnrichLicense, proj, formatScore)
    + RefFor(DepsCdx.EnrichDescription, proj, formatScore) + RefFor(DepsCdx.EnrichHomepage, proj, formatScore)
    + RefFor(DepsCdx.EnrichScorecard, proj, formatScore)
  }

  /** Some reference has the given type. */
  predicate HasRef(refs: seq<ExternalRef>, name: string) {
    exists k :: 0 <= k < |refs| && refs[k].refType == name
  }

  /** Every reference of the given type has the given locator. */
  predicate RefsValued(refs: seq<ExternalRef>, name: string, v: string) {
    forall k :: 0 <= k < |refs| && refs[k].refType == name ==> refs[k].locator == v
  }

  /** Every reference is a deps.dev one: category OTHER, commented
      "deps.dev " followed by its type. */
  predicate DepsRefs(refs: seq<ExternalRef>) {
    forall k :: 0 <= k < |refs| ==> refs[k].category == CategoryOther && refs[k].comment == "deps.dev " + refs[k].refType
  }

  /** The three properties of a concatenation are those of its parts. */
  lemma ConcatRefs(a: seq<ExternalRef>, b: seq<ExternalRef>, name: string, v: string)
    ensures HasRef(a + b, name) <==> HasRef(a, name) || HasRef(b, name)
    ensures RefsValued(a + b, name, v) <==> RefsValued(a, name, v) && RefsValued(b, name, v)
    ensures DepsRefs(a + b) <==> DepsRefs(a) && DepsRefs(b)
  {
    assert forall k :: 0 <= k < |a| ==> (a + b)[k] == a[k];
    assert forall k :: 0 <= k < |b| ==> (a + b)[|a| + k] == b[k];
    if HasRef(a + b, name) {
      var k :| 0 <= k < |a + b| && (a + b)[k].refType == name;
      if k >= |a| {
        assert b[k - |a|] == (a + b)[k];
      }
    }
  }

  /** The reference for g has f's name exactly when g is f and the
      project gives f a value, and then it carries that value. */
  lemma RefForFacts(g: DepsCdx.Enricher, f: DepsCdx.Enricher, proj: Project, formatScore: real -> string)
    ensures HasRef(RefFor(g, proj, formatScore), DepsCdx.Name(f)) <==> g == f && Value(f, proj, formatScore).Some?
    ensures RefsValued(RefFor(g, proj, formatScore), DepsCdx.Name(f), Value(f, proj, formatScore).GetOr(""))
    ensures DepsRefs(RefFor(g, proj, formatScore)) && |RefFor(g, proj, formatScore)| <= 1
  {
    var r := RefFor(g, proj, formatScore);
    if g != f {
      DepsCdx.NamesDistinct(g, f);
      if |r| > 0 {
        assert r[0].refType == DepsCdx.Name(g);
      }
    } else if Value(f, proj, formatScore).Some? {
      assert r[0].refType == DepsCdx.Name(f);
    }
  }

  /** A name's reference is among a project's references exactly when the
      project gives the name a value, and then it carries that value; all
      of them are deps.dev references. */
  lemma ProjectRefsPresence(proj: Project, formatScore: real -> string, f: DepsCdx.Enricher)
    ensures HasRef(ProjectRefs(proj, formatScore), DepsCdx.Name(f)) <==> Value(f, proj, formatScore).Some?
    ensures Value(f, proj, formatScore).Some? ==> RefsValued(ProjectRefs(proj, formatScore), DepsCdx.Name(f), Value(f, proj, formatScore).value)
    ensures DepsRefs(ProjectRefs(proj, formatScore)) && |ProjectRefs(proj, formatScore)| <= 7
  {
    var name, v := DepsCdx.Name(f), Value(f, proj, formatScore).GetOr("");
    var r1, r2 := RefFor(DepsCdx.EnrichOpenIssues, proj, formatScore), RefFor(DepsCdx.EnrichStars, proj, formatScore);
    var r3, r4 := RefFor(DepsCdx.EnrichForks, proj, formatScore), RefFor(DepsCdx.EnrichLicense, proj, formatScore);
    var r5, r6 := RefFor(DepsCdx.EnrichDescription, proj, formatScore), RefFor(DepsCdx.EnrichHomepage, proj, formatScore);
    var r7 := RefFor(DepsCdx.EnrichScorecard, proj, formatScore);
    RefForFacts(DepsCdx.EnrichOpenIssues, f, proj, formatScore);
    RefForFacts(DepsCdx.EnrichStars, f, proj, formatScore);
    RefForFacts(DepsCdx.EnrichForks, f, proj, formatScore);
    RefForFacts(DepsCdx.EnrichLicense, f, proj, formatScore);
    RefForFacts(DepsCdx.EnrichDescription, f, proj, formatScore);
    RefForFacts(DepsCdx.EnrichHomepage, f, proj, formatScore);
    RefForFacts(DepsCdx.EnrichScorecard, f, proj, formatScore);
    ConcatRefs(r1, r2, name, v);
    ConcatRefs(r1 + r2, r3, name, v);
    ConcatRefs(r1 + r2 + r3, r4, name, v);
    ConcatRefs(r1 + r2 + r3 + r4, r5, name, v);
    ConcatRefs(r1 + r2 + r3 + r4 + r5, r6, name, v);
    ConcatRefs(r1 + r2 + r3 + r4 + r5 + r6, r7, name, v);
  }

  /** The count references read back as the count; licence, description
      and homepage are present exactly when non-nil and non-empty; the
      scorecard exactly when it has an overall score. */
  lemma ValuePresence(proj: Project, formatScore: real -> string, f: DepsCdx.Enricher)
    ensures DepsCdx.Count(f, proj).Some? ==> Value(f, proj, formatScore).Some?
    ensures DepsCdx.Count(f, proj).Some? && InInt64(DepsCdx.Count(f, proj).value) ==>
      Value(f, proj, formatScore).Some? && ParseInt64(Value(f, proj, formatScore).value) == DepsCdx.Count(f, proj)
    ensures f == DepsCdx.EnrichLicense ==> (Value(f, proj, formatScore).Some? <==> proj.license.Some? && proj.license.value != "")
    ensures f == DepsCdx.EnrichDescription ==> (Value(f, proj, formatScore).Some? <==> proj.description.Some? && proj.description.value != "")
    ensures f == DepsCdx.EnrichHomepage ==> (Value(f, proj, formatScore).Some? <==> proj.homepage.Some? && proj.homepage.value != "")
    ensures f == DepsCdx.EnrichScorecard ==>
      (Value(f, proj, formatScore).Some? <==> proj.scorecard.Some? && proj.scorecard.value.overallScore.Some?)
  {
    if DepsCdx.Count(f, proj).Some? && InInt64(DepsCdx.Count(f, proj).value) {
      ParseItoa(DepsCdx.Count(f, proj).value);
    }
  }

  /** With every value present, the seven references come in the order
      open issues, stars, forks, licence, description, homepage,
      scorecard. */
  lemma AllRefsInOrder(proj: Project, formatScore: real -> string)
    requires forall f: DepsCdx.Enricher :: Value(f, proj, formatScore).Some?
    ensures |ProjectRefs(proj, formatScore)| == 7
    ensures forall i :: 0 <= i < 7 ==> ProjectRefs(proj, formatScore)[i].refType == DepsCdx.Name(DepsCdx.EnrichFuncs[i])
  {
    var fs := DepsCdx.EnrichFuncs;
    var refs := ProjectRefs(proj, formatScore);
    assert |RefFor(fs[0], proj, formatScore)| == 1 && |RefFor(fs[1], proj, formatScore)| == 1;
    assert |RefFor(fs[2], proj, formatScore)| == 1 && |RefFor(fs[3], proj, formatScore)| == 1;
    assert |RefFor(fs[4], proj, formatScore)| == 1 && |RefFor(fs[5], proj, formatScore)| == 1;
    assert |RefFor(fs[6], proj, formatScore)| == 1;
  }

  /** The three count checks of the goroutine body. */
  method AddCountRefs(p: Package, proj: Project, formatScore: real -> string) returns (q: Package)
    ensures q == p.(externalRefs := p.externalRefs + RefFor(DepsCdx.EnrichOpenIssues, proj, formatScore)
      + RefFor(DepsCdx.EnrichStars, proj, formatScore) + RefFor(DepsCdx.EnrichForks, proj, formatScore))
  {
    q := p;
    if proj.openIssuesCount.Some? {
      q := EnrichExternalRef(q, "deps:open_issues_count", Itoa(proj.openIssuesCount.value));
    }
    assert q == p.(externalRefs := p.externalRefs + RefFor(DepsCdx.EnrichOpenIssues, proj, formatScore));
    if proj.starsCount.Some? {
      q := EnrichExternalRef(q, "deps:stars_count", Itoa(proj.starsCount.value));
    }
    assert q == p.(externalRefs := p.externalRefs + RefFor(DepsCdx.EnrichOpenIssues, proj, formatScore)
      + RefFor(DepsCdx.EnrichStars, proj, formatScore));
    if proj.forksCount.Some? {
      q := EnrichExternalRef(q, "deps:forks_count", Itoa(proj.forksCount.value));
    }
  }

  /** The three text checks of the goroutine body: an empty string counts
      as absent. */
  method AddTextRefs(p: Package, proj: Project, formatScore: real -> string) returns (q: Package)
    ensures q == p.(externalRefs := p.externalRefs + RefFor(DepsCdx.EnrichLicense, proj, formatScore)
      + RefFor(DepsCdx.EnrichDescription, proj, formatScore) + RefFor(DepsCdx.EnrichHomepage, proj, formatScore))
  {
    q := p;
    if proj.license.Some? && proj.license.value != "" {
      q := EnrichExternalRef(q, "deps:license", proj.license.value);
    }
    assert q == p.(externalRefs := p.externalRefs + RefFor(DepsCdx.EnrichLicense, proj, formatScore));
    if proj.description.Some? && proj.description.value != "" {
      q := EnrichExternalRef(q, "deps:description", proj.description.value);
    }
    assert q == p.(externalRefs := p.externalRefs + RefFor(DepsCdx.EnrichLicense, proj, formatScore)
      + RefFor(DepsCdx.EnrichDescription, proj, formatScore));
    if proj.homepage.Some? && proj.homepage.value != "" {
      q := EnrichExternalRef(q, "deps:homepage", proj.homepage.value);
    }
  }

  /** The seven checks, each appending through the package pointer: the
      counts, the texts, then the scorecard. */
  method AddProjectRefs(p: Package, proj: Project, formatScore: real -> string) returns (q: Package)
    ensures q == p.(externalRefs := p.externalRefs + ProjectRefs(proj, formatScore))
  {
    var r1, r2 := RefFor(DepsCdx.EnrichOpenIssues, proj, formatScore), RefFor(DepsCdx.EnrichStars, proj, formatScore);
    var r3, r4 := RefFor(DepsCdx.EnrichForks, proj, formatScore), RefFor(DepsCdx.EnrichLicense, proj, formatScore);
    var r5, r6 := RefFor(DepsCdx.EnrichDescription, proj, formatScore), RefFor(DepsCdx.EnrichHomepage, proj, formatScore);
    var r7 := RefFor(DepsCdx.EnrichScorecard, proj, formatScore);
    q := AddCountRefs(p, proj, formatScore);
    q := AddTextRefs(q, proj, formatScore);
    assert q == p.(externalRefs := p.externalRefs + r1 + r2 + r3 + r4 + r5 + r6);
    if proj.scorecard.Some? && proj.scorecard.value.overallScore.Some? {
      q := EnrichExternalRef(q, "deps:scorecard", formatScore(proj.scorecard.value.overallScore.value));
    }
    assert q == p.(externalRefs := p.externalRefs + r1 + r2 + r3 + r4 + r5 + r6 + r7);
    Associate(p.externalRefs, r1, r2, r3, r4, r5, r6, r7);
  }

  /** Appending seven lists one after another is appending their
      concatenation. */
  lemma Associate(s: seq<ExternalRef>, r1: seq<ExternalRef>, r2: seq<ExternalRef>, r3: seq<ExternalRef>,
                  r4: seq<ExternalRef>, r5: seq<ExternalRef>, r6: seq<ExternalRef>, r7: seq<ExternalRef>)
    ensures s + r1 + r2 + r3 + r4 + r5 + r6 + r7 == s + (r1 + r2 + r3 + r4 + r5 + r6 + r7)
  {
    assert s + r1 + r2 == s + (r1 + r2);
    assert s + (r1 + r2) + r3 == s + (r1 + r2 + r3);
    assert s + (r1 + r2 + r3) + r4 == s + (r1 + r2 + r3 + r4);
    assert s + (r1 + r2 + r3 + r4) + r5 == s + (r1 + r2 + r3 + r4 + r5);
    assert s + (r1 + r2 + r3 + r4 + r5) + r6 == s + (r1 + r2 + r3 + r4 + r5 + r6);
  }

  // ----- one package -----

  /** The project a package is enriched with, if any: none without a
      non-empty repository reference, and none when the lookup fails. */
  function ProjectOf(env: Env, p: Package): Option<Project> {
    var u := FirstRepoRef(p.externalRefs).GetOr("");
    if u == "" then None
    else match FetchProject(env.getProject, env.queryEscape, NormalizeRepoURL(env.lib, u))
      case Ok(proj) => Some(proj)
      case Err(_) => None
  }

  /** One package enriched: with a project, its references are appended. */
  function Enriched(env: Env, p: Package): Package {
    match ProjectOf(env, p)
    case None => p
    case Some(proj) => p.(externalRefs := p.externalRefs + ProjectRefs(proj, env.formatScore))
  }

  /** Only the references change, and only by appending: the existing ones
      stay first and every new one is a deps.dev reference. */
  lemma EnrichedAppends(env: Env, p: Package)
    ensures Enriched(env, p).(externalRefs := p.externalRefs) == p
    ensures p.externalRefs <= Enriched(env, p).externalRefs
    ensures DepsRefs(Enriched(env, p).externalRefs[|p.externalRefs|..])
  {
    var q := Enriched(env, p);
    if ProjectOf(env, p).Some? {
      var proj := ProjectOf(env, p).value;
      ProjectRefsPresence(proj, env.formatScore, DepsCdx.EnrichStars);
      assert q.externalRefs[|p.externalRefs|..] == ProjectRefs(proj, env.formatScore);
    } else {
      assert q.externalRefs[|p.externalRefs|..] == [];
    }
  }

  /** A package without a repository reference is left as it is. */
  lemma NoRepoUnchanged(env: Env, p: Package)
    requires forall i :: 0 <= i < |p.externalRefs| ==> !IsRepoRef(p.externalRefs[i])
    ensures Enriched(env, p) == p
  {
  }

  /** A package whose repository lookup fails is left as it is. */
  lemma FailedFetchUnchanged(env: Env, p: Package)
    requires FirstRepoRef(p.externalRefs).Some?
    requires FetchProject(env.getProject, env.queryEscape, NormalizeRepoURL(env.lib, FirstRepoRef(p.externalRefs).value)).Err?
    ensures Enriched(env, p) == p
  {
  }

  /** The goroutine body for one package. */
  method EnrichPackage(env: Env, p: Package, cache: ProjectCache) returns (q: Package)
    requires Faithful(cache.data, env.getProject, env.queryEscape)
    modifies cache
    ensures q == Enriched(env, p)
    ensures Faithful(cache.data, env.getProject, env.queryEscape)
  {
    var repoURL := FindRepoURL(p.externalRefs);
    if repoURL == "" {
      return p;
    }
    var proj, _ := GetRepoDataWithCache(env.lib, env.queryEscape, env.getProject, repoURL, cache);
    if proj.Err? {
      return p;
    }
    q := AddProjectRefs(p, proj.value, env.formatScore);
  }

  /** enrichSPDX: every package, in place, through one fresh cache. */
  method EnrichSPDX(env: Env, doc: Document) returns (r: Document)
    ensures |r.packages| == |doc.packages|
    ensures forall i :: 0 <= i < |doc.packages| ==> r.packages[i] == Enriched(env, doc.packages[i])
  {
    var cache := new ProjectCache();
    var packages := doc.packages;
    var i := 0;
    while i < |packages|
      invariant 0 <= i <= |packages| && |packages| == |doc.packages|
      invariant forall j :: 0 <= j < i ==> packages[j] == Enriched(env, doc.packages[j])
      invariant forall j :: i <= j < |packages| ==> packages[j] == doc.packages[j]
      invariant Faithful(cache.data, env.getProject, env.queryEscape)
    {
      var q := EnrichPackage(env, packages[i], cache);
      packages := packages[i := q];
      i := i + 1;
    }
    r := doc.(packages := packages);
  }
}
