/** The Snyk enricher for CycloneDX documents: every discovered component
    with a parsable purl gets the Snyk Advisor and Snyk Vulnerability DB
    references; components are grouped by purl so that one issues request is
    made per distinct package; each issue with problems becomes a
    vulnerability that names its component's BOM ref.

    The Snyk service is a set of oracles: the two reference URLs, the issues
    request (with the decoding of its body) and RFC 3339 rendering.
    Goroutines each write their own group only, so the fetch loop runs the
    groups one after another. The map from components to issues is keyed
    as Go keys it (a component with a pointer set by the handle that
    reaches it, one without by its value) and read in the order its keys
    were first filed. */
module SnykCdx {
  import opened Base
  import opened Cdx
  import opened UtilsCdx
  import opened Purl
  import opened Grouping
  import opened SnykIssues
  import opened EcoTypes

  const AdvisorComment: string := "Snyk Advisor"
  const VulnDBComment: string := "Snyk Vulnerability DB"
  /** The reference type the Snyk enrichers write, spelled as in the source. */
  const SnykRefType: string := "Other"
  /** snykVulnerabilityDBWebURL. */
  const SnykVulnerabilityDBWebURL: string := "https://security.snyk.io"

  datatype Service = Service(
    advisorURL: PackageURL -> string,
    vulnURL: PackageURL -> string,
    fetch: PackageURL -> IssuesAnswer,
    rfc3339: Time -> string)

  // ----- reference enrichers -----

  /** One Snyk reference enricher: nothing for an empty URL, otherwise the
      reference is appended (a nil list becomes a one-element list). */
  function AddSnykRef(c: Component, url: string, comment: string): (r: Component)
    ensures url == "" ==> r == c
    ensures url != "" ==> (r.externalReferences.Some? &&
      r.externalReferences.value == Elems(c.externalReferences) + [ExternalReference(url, comment, SnykRefType)])
    ensures r.(externalReferences := c.externalReferences) == c
  {
    if url == "" then c
    else c.(externalReferences := Append(c.externalReferences, ExternalReference(url, comment, SnykRefType)))
  }

  /** cdxEnrichers in order: the Advisor reference, then the Vulnerability DB
      reference. */
  function EnrichRefs(svc: Service, c: Component, p: PackageURL): Component {
    var withAdvisor := AddSnykRef(c, svc.advisorURL(p), AdvisorComment);
    AddSnykRef(withAdvisor, svc.vulnURL(p), VulnDBComment)
  }

  /** The references come after the existing ones, Advisor first, each only
      when its URL is not empty; nothing else changes. */
  lemma EnrichRefsAppends(svc: Service, c: Component, p: PackageURL)
    ensures Elems(EnrichRefs(svc, c, p).externalReferences) == Elems(c.externalReferences)
      + (if svc.advisorURL(p) != "" then [ExternalReference(svc.advisorURL(p), AdvisorComment, SnykRefType)] else [])
      + (if svc.vulnURL(p) != "" then [ExternalReference(svc.vulnURL(p), VulnDBComment, SnykRefType)] else [])
    ensures EnrichRefs(svc, c, p).(externalReferences := c.externalReferences) == c
  {
  }

  /** What the grouping loop does to one component: the references when its
      purl parses, nothing otherwise. */
  function Update(codec: Codec, svc: Service): Component -> Component {
    (c: Component) => match codec.parse(c.packageURL)
         case Ok(p) => EnrichRefs(svc, c, p)
         case Err(_) => c
  }

  /** The discovered components as grouping entries. */
  function Entries(codec: Codec, bom: Bom): (es: seq<Entry<Handle>>)
    ensures |es| == |Discover(bom)|
    ensures forall k :: 0 <= k < |es| ==> (es[k].member == Discover(bom)[k] && Valid(bom, Discover(bom)[k])
      && es[k].ref == At(bom, Discover(bom)[k]).bomRef && es[k].purl == codec.parse(At(bom, Discover(bom)[k]).packageURL))
  {
    var d := Discover(bom);
    DiscoverValid(bom);
    seq(|d|, k requires 0 <= k < |d| => Entry(d[k], At(bom, d[k]).bomRef, codec.parse(At(bom, d[k]).packageURL)))
  }

  lemma EntriesDistinct(codec: Codec, bom: Bom)
    ensures DistinctMembers(Entries(codec, bom))
  {
    var es := Entries(codec, bom);
    forall i, j | 0 <= i < j < |es| ensures es[i].member != es[j].member {
      DiscoverDistinct(bom, i, j);
    }
  }

  // ----- issues to vulnerabilities -----

  /** One severity with a score as a rating: the source defaults to "Snyk",
      and only the "Snyk" source gets the Vulnerability DB URL. */
  function RatingOf(sev: SeverityEntry): (r: Rating)
    requires sev.score.Some?
    ensures r.source.name == sev.source.GetOr("Snyk")
    ensures r.source.url == if r.source.name == "Snyk" then SnykVulnerabilityDBWebURL else ""
    ensures r.score == sev.score.value && r.vector == sev.vector
    ensures r.severity == LevelToCdxSeverity(sev.level) && r.scoringMethod == VersionToCdxMethod(sev.version)
  {
    var name := sev.source.GetOr("Snyk");
    var source := Source(name, if name == "Snyk" then SnykVulnerabilityDBWebURL else "");
    Rating(source, sev.score.value, LevelToCdxSeverity(sev.level), VersionToCdxMethod(sev.version), sev.vector)
  }

  /** The ratings of the severities that have a score, in order. */
  function Ratings(sevs: seq<SeverityEntry>): seq<Rating>
    decreases |sevs|
  {
    if |sevs| == 0 then []
    else
      var last := sevs[|sevs| - 1];
      var rest := Ratings(sevs[..|sevs| - 1]);
      if last.score.Some? then rest + [RatingOf(last)] else rest
  }

  /** A rating comes from a scored severity, and every scored severity gives
      one. */
  lemma {:induction false} RatingsMembers(sevs: seq<SeverityEntry>, rt: Rating)
    ensures rt in Ratings(sevs) <==> exists i :: 0 <= i < |sevs| && sevs[i].score.Some? && rt == RatingOf(sevs[i])
    decreases |sevs|
  {
    if |sevs| > 0 {
      var n := |sevs| - 1;
      var pre := sevs[..n];
      RatingsMembers(pre, rt);
      if rt in Ratings(sevs) {
        if rt in Ratings(pre) {
          var i :| 0 <= i < |pre| && pre[i].score.Some? && rt == RatingOf(pre[i]);
          assert sevs[i] == pre[i];
        } else {
          assert sevs[n].score.Some? && rt == RatingOf(sevs[n]);
        }
      } else {
        forall i | 0 <= i < |sevs| && sevs[i].score.Some? ensures rt != RatingOf(sevs[i]) {
          if i < n {
            assert sevs[i] == pre[i];
          }
        }
      }
    }
  }

  /** The issue's problems can be read without a panic. */
  predicate Sliceable(issue: Issue) {
    issue.problems.Some? ==> CweIdsSliceable(issue.problems.value)
  }

  function TimeOr(rfc3339: Time -> string, t: Option<Time>): string {
    if t.Some? then rfc3339(t.value) else ""
  }

  /** The vulnerability an issue gives, or None when its problems are nil
      (the append sits inside the problems block). */
  function VulnerabilityOf(rfc3339: Time -> string, bomRef: string, issue: Issue): (v: Option<Vulnerability>)
    requires Sliceable(issue)
    ensures v.None? <==> issue.problems.None?
    ensures v.Some? ==> v.value.bomRef == bomRef && v.value.id == issue.id.GetOr("")
  {
    match issue.problems
    case None => None
    case Some(ps) =>
      Some(Vulnerability(bomRef, issue.id.GetOr(""), issue.title.GetOr(""), issue.description.GetOr(""),
        TimeOr(rfc3339, issue.createdAt), TimeOr(rfc3339, issue.updatedAt),
        NilIfEmpty(Cwes(ps)), NilIfEmpty(References(ps)),
        NilIfEmpty(Advisories(Elems(issue.slotReferences))), NilIfEmpty(Ratings(Elems(issue.severities)))))
  }

  /** The body of the vulnerability loop for one issue. */
  method IssueToVulnerability(rfc3339: Time -> string, bomRef: string, issue: Issue) returns (v: Option<Vulnerability>)
    requires Sliceable(issue)
    ensures v == VulnerabilityOf(rfc3339, bomRef, issue)
  {
    if issue.problems.None? {
      return None;
    }
    var vuln := EmptyVulnerability(bomRef);
    if issue.id.Some? { vuln := vuln.(id := issue.id.value); }
    if issue.title.Some? { vuln := vuln.(description := issue.title.value); }
    if issue.description.Some? { vuln := vuln.(detail := issue.description.value); }
    if issue.createdAt.Some? { vuln := vuln.(created := rfc3339(issue.createdAt.value)); }
    if issue.updatedAt.Some? { vuln := vuln.(updated := rfc3339(issue.updatedAt.value)); }
    var cwes, refs := MapProblems(issue.problems.value);
    var ads := MapAdvisories(issue.slotReferences);
    vuln := vuln.(cwes := cwes, references := refs, advisories := ads);
    var ratings := MapRatings(Elems(issue.severities));
    vuln := vuln.(ratings := ratings);
    return Some(vuln);
  }

  /** The severity loop: a rating per scored severity, the list nil until
      its first element. */
  method MapRatings(sevs: seq<SeverityEntry>) returns (ratings: Option<seq<Rating>>)
    ensures ratings == NilIfEmpty(Ratings(sevs))
  {
    ratings := None;
    var i := 0;
    while i < |sevs|
      invariant 0 <= i <= |sevs|
      invariant ratings == NilIfEmpty(Ratings(sevs[..i]))
    {
      assert sevs[..i + 1][..i] == sevs[..i];
      if sevs[i].score.Some? {
        ratings := Append(ratings, RatingOf(sevs[i]));
      }
      i := i + 1;
    }
    assert sevs[..|sevs|] == sevs;
  }

  /** The vulnerabilities of one component's issues, in order. */
  function IssueVulns(rfc3339: Time -> string, bomRef: string, issues: seq<Issue>): (r: seq<Vulnerability>)
    requires forall i :: 0 <= i < |issues| ==> Sliceable(issues[i])
    ensures |r| <= |issues|
    ensures forall v :: v in r ==> v.bomRef == bomRef
    decreases |issues|
  {
    if |issues| == 0 then []
    else
      var rest := IssueVulns(rfc3339, bomRef, issues[..|issues| - 1]);
      match VulnerabilityOf(rfc3339, bomRef, issues[|issues| - 1])
      case Some(v) => rest + [v]
      case None => rest
  }

  /** Every issue a request may answer with can be read without a panic. */
  ghost predicate AnswersSliceable(fetch: PackageURL -> IssuesAnswer) {
    forall p :: Answer(fetch(p)).Some? ==> forall i :: 0 <= i < |Answer(fetch(p)).value| ==> Sliceable(Answer(fetch(p)).value[i])
  }

  // ----- the vulnerability map -----

  /** A component as a key of the Go map, once its references are added.
      A cdx.Component key compares its pointer fields by address, and
      decoding gives every component pointers of its own: a component with
      a pointer set is a key of its own, named by the handle that reaches
      it, and components without pointers are one key exactly when they
      are equal. */
  datatype MapKey = ByValue(c: Component) | ByHandle(h: Handle)

  /** The key of the component c reached through h. */
  function KeyOfComponent(c: Component, h: Handle): MapKey {
    if PointersNil(c) then ByValue(c) else ByHandle(h)
  }

  /** The key under which the answer for the component at h is filed: that
      of the component as the grouping loop leaves it. */
  function KeyAt(codec: Codec, svc: Service, bom0: Bom, h: Handle): MapKey {
    if Valid(bom0, h) then KeyOfComponent(Update(codec, svc)(At(bom0, h)), h) else ByHandle(h)
  }

  /** Two components share a key exactly when they are reached through the
      same handle, or are equal, once enriched, without holding a pointer. */
  lemma SameKeyAt(codec: Codec, svc: Service, bom0: Bom, h: Handle, g: Handle)
    requires Valid(bom0, h) && Valid(bom0, g)
    ensures KeyAt(codec, svc, bom0, h) == KeyAt(codec, svc, bom0, g) <==>
      h == g || (PointersNil(Update(codec, svc)(At(bom0, h))) && Update(codec, svc)(At(bom0, h)) == Update(codec, svc)(At(bom0, g)))
  {
  }

  /** The key of every handle, as KeyAt gives it for bom0. */
  function KeysOf(codec: Codec, svc: Service, bom0: Bom): Handle -> MapKey {
    h => KeyAt(codec, svc, bom0, h)
  }

  /** The keys the entries of es that received an answer are filed under. */
  function FiledKeys(codec: Codec, svc: Service, key: Handle -> MapKey, gs: seq<Group<Handle>>, es: seq<Entry<Handle>>): set<MapKey>
    decreases |es|
  {
    if |es| == 0 then {}
    else
      var n := |es| - 1;
      FiledKeys(codec, svc, key, gs, es[..n])
        + if AnswerFor(codec, svc.fetch, gs, es[n]).Some? then {key(es[n].member)} else {}
  }

  /** A filed key was filed by an entry that received an answer; the lemma
      names it. */
  lemma {:induction false} FiledFrom(codec: Codec, svc: Service, key: Handle -> MapKey, gs: seq<Group<Handle>>, es: seq<Entry<Handle>>, k: MapKey)
    returns (j: int)
    requires k in FiledKeys(codec, svc, key, gs, es)
    ensures 0 <= j < |es| && AnswerFor(codec, svc.fetch, gs, es[j]).Some? && key(es[j].member) == k
    decreases |es|
  {
    var n := |es| - 1;
    var pre := es[..n];
    if k in FiledKeys(codec, svc, key, gs, pre) {
      j := FiledFrom(codec, svc, key, gs, pre, k);
      assert es[j] == pre[j];
    } else {
      j := n;
    }
  }

  /** The vulnerabilities of the entries es: an entry that received an
      answer adds its issues' vulnerabilities, unless an earlier one filed
      its key already. */
  function Emitted(codec: Codec, svc: Service, key: Handle -> MapKey, gs: seq<Group<Handle>>, es: seq<Entry<Handle>>): seq<Vulnerability>
    requires AnswersSliceable(svc.fetch)
    decreases |es|
  {
    if |es| == 0 then []
    else
      var n := |es| - 1;
      var e := es[n];
      var rest := Emitted(codec, svc, key, gs, es[..n]);
      match AnswerFor(codec, svc.fetch, gs, e)
      case None => rest
      case Some(issues) =>
        if key(e.member) in FiledKeys(codec, svc, key, gs, es[..n]) then rest
        else rest + IssueVulns(svc.rfc3339, e.ref, issues)
  }

  /** One more entry adds its issues' vulnerabilities at the end, when it
      received an answer under a key not filed before. */
  lemma EmittedSnoc(codec: Codec, svc: Service, key: Handle -> MapKey, gs: seq<Group<Handle>>, es: seq<Entry<Handle>>)
    requires AnswersSliceable(svc.fetch) && |es| > 0
    ensures var n := |es| - 1; var a := AnswerFor(codec, svc.fetch, gs, es[n]);
      Emitted(codec, svc, key, gs, es) == Emitted(codec, svc, key, gs, es[..n])
        + if a.Some? && key(es[n].member) !in FiledKeys(codec, svc, key, gs, es[..n])
          then IssueVulns(svc.rfc3339, es[n].ref, a.value) else []
  {
  }

  /** The vulnerabilities of a prefix come first. */
  lemma EmittedGrows(codec: Codec, svc: Service, key: Handle -> MapKey, gs: seq<Group<Handle>>, es: seq<Entry<Handle>>)
    requires AnswersSliceable(svc.fetch) && |es| > 0
    ensures Emitted(codec, svc, key, gs, es[..|es| - 1]) <= Emitted(codec, svc, key, gs, es)
  {
    EmittedSnoc(codec, svc, key, gs, es);
  }

  /** Entries filed under one key name the same BOM ref and receive the
      same answer. */
  predicate KeyDecides(codec: Codec, svc: Service, key: Handle -> MapKey, gs: seq<Group<Handle>>, es: seq<Entry<Handle>>) {
    forall i, j :: 0 <= i < |es| && 0 <= j < |es| && key(es[i].member) == key(es[j].member) ==>
      es[i].ref == es[j].ref && AnswerFor(codec, svc.fetch, gs, es[i]) == AnswerFor(codec, svc.fetch, gs, es[j])
  }

  lemma KeyDecidesPrefix(codec: Codec, svc: Service, key: Handle -> MapKey, gs: seq<Group<Handle>>, es: seq<Entry<Handle>>, n: int)
    requires KeyDecides(codec, svc, key, gs, es) && 0 <= n <= |es|
    ensures KeyDecides(codec, svc, key, gs, es[..n])
  {
    forall k | 0 <= k < n ensures es[..n][k] == es[k] { }
  }

  /** Each entry is the discovered component its handle reaches in bom0. */
  predicate EntriesOf(codec: Codec, bom0: Bom, es: seq<Entry<Handle>>) {
    forall k :: 0 <= k < |es| ==> (Valid(bom0, es[k].member)
      && es[k].ref == At(bom0, es[k].member).bomRef && es[k].purl == codec.parse(At(bom0, es[k].member).packageURL))
  }

  /** The update keeps the BOM ref, the purl and the nested list. */
  lemma UpdateKeepsIdentity(codec: Codec, svc: Service, c: Component)
    ensures Update(codec, svc)(c).bomRef == c.bomRef && Update(codec, svc)(c).packageURL == c.packageURL
    ensures Update(codec, svc)(c).components == c.components
  {
    if codec.parse(c.packageURL).Ok? {
      EnrichRefsAppends(svc, c, codec.parse(c.packageURL).value);
    }
  }

  /** Two entries of bom0 filed under one key name the same BOM ref and
      receive the same answer. */
  lemma SameKeySameAnswer(codec: Codec, svc: Service, bom0: Bom, gs: seq<Group<Handle>>, es: seq<Entry<Handle>>, i: int, j: int)
    requires EntriesOf(codec, bom0, es) && 0 <= i < |es| && 0 <= j < |es|
    requires KeyAt(codec, svc, bom0, es[i].member) == KeyAt(codec, svc, bom0, es[j].member)
    ensures es[i].ref == es[j].ref
    ensures AnswerFor(codec, svc.fetch, gs, es[i]) == AnswerFor(codec, svc.fetch, gs, es[j])
  {
    var ci, cj := At(bom0, es[i].member), At(bom0, es[j].member);
    UpdateKeepsIdentity(codec, svc, ci);
    UpdateKeepsIdentity(codec, svc, cj);
    assert ci.bomRef == cj.bomRef && ci.packageURL == cj.packageURL;
    assert KeyOf(codec, es[i]) == KeyOf(codec, es[j]);
  }

  /** The keys of bom0 decide the BOM ref and the answer of its entries. */
  lemma EntriesKeyDecide(codec: Codec, svc: Service, bom0: Bom, gs: seq<Group<Handle>>, es: seq<Entry<Handle>>)
    requires EntriesOf(codec, bom0, es)
    ensures KeyDecides(codec, svc, KeysOf(codec, svc, bom0), gs, es)
  {
    var key := KeysOf(codec, svc, bom0);
    forall i, j | 0 <= i < |es| && 0 <= j < |es| && key(es[i].member) == key(es[j].member)
      ensures es[i].ref == es[j].ref && AnswerFor(codec, svc.fetch, gs, es[i]) == AnswerFor(codec, svc.fetch, gs, es[j])
    {
      SameKeySameAnswer(codec, svc, bom0, gs, es, i, j);
    }
  }

  /** Every emitted vulnerability comes from an issue of an entry that
      received an answer; the lemma names the entry. */
  lemma {:induction false} EmittedFrom(codec: Codec, svc: Service, key: Handle -> MapKey, gs: seq<Group<Handle>>, es: seq<Entry<Handle>>, v: Vulnerability)
    returns (i: int)
    requires AnswersSliceable(svc.fetch)
    requires v in Emitted(codec, svc, key, gs, es)
    ensures 0 <= i < |es| && AnswerFor(codec, svc.fetch, gs, es[i]).Some?
    ensures v in IssueVulns(svc.rfc3339, es[i].ref, AnswerFor(codec, svc.fetch, gs, es[i]).value)
    decreases |es|
  {
    var n := |es| - 1;
    var pre := es[..n];
    EmittedSnoc(codec, svc, key, gs, es);
    if v in Emitted(codec, svc, key, gs, pre) {
      i := EmittedFrom(codec, svc, key, gs, pre, v);
      assert es[i] == pre[i];
    } else {
      i := n;
    }
  }

  /** The issues of the last entry give emitted vulnerabilities of their
      own, or the last entry shares its key with an earlier entry, which the
      lemma names. */
  lemma LastAddsOrShares(codec: Codec, svc: Service, key: Handle -> MapKey, gs: seq<Group<Handle>>, es: seq<Entry<Handle>>, v: Vulnerability)
    returns (added: bool, j: int)
    requires AnswersSliceable(svc.fetch) && KeyDecides(codec, svc, key, gs, es) && |es| > 0
    requires AnswerFor(codec, svc.fetch, gs, es[|es| - 1]).Some?
    requires v in IssueVulns(svc.rfc3339, es[|es| - 1].ref, AnswerFor(codec, svc.fetch, gs, es[|es| - 1]).value)
    ensures added ==> v in Emitted(codec, svc, key, gs, es)
    ensures !added ==> (0 <= j < |es| - 1 && AnswerFor(codec, svc.fetch, gs, es[j]).Some?
      && v in IssueVulns(svc.rfc3339, es[j].ref, AnswerFor(codec, svc.fetch, gs, es[j]).value))
  {
    var n := |es| - 1;
    EmittedSnoc(codec, svc, key, gs, es);
    var k := key(es[n].member);
    if k in FiledKeys(codec, svc, key, gs, es[..n]) {
      added := false;
      j := FiledFrom(codec, svc, key, gs, es[..n], k);
      assert es[..n][j] == es[j];
    } else {
      added, j := true, 0;
    }
  }

  /** Every issue of every entry that received an answer gives an emitted
      vulnerability, even when that entry's key was filed by an earlier
      one. */
  lemma {:induction false} EmittedHas(codec: Codec, svc: Service, key: Handle -> MapKey, gs: seq<Group<Handle>>, es: seq<Entry<Handle>>, i: int, v: Vulnerability)
    requires AnswersSliceable(svc.fetch) && KeyDecides(codec, svc, key, gs, es)
    requires 0 <= i < |es| && AnswerFor(codec, svc.fetch, gs, es[i]).Some?
    requires v in IssueVulns(svc.rfc3339, es[i].ref, AnswerFor(codec, svc.fetch, gs, es[i]).value)
    ensures v in Emitted(codec, svc, key, gs, es)
    decreases |es|
  {
    var n := |es| - 1;
    var pre := es[..n];
    KeyDecidesPrefix(codec, svc, key, gs, es, n);
    EmittedGrows(codec, svc, key, gs, es);
    if i < n {
      assert es[i] == pre[i];
      EmittedHas(codec, svc, key, gs, pre, i, v);
    } else {
      var added, j := LastAddsOrShares(codec, svc, key, gs, es, v);
      if !added {
        assert es[j] == pre[j];
        EmittedHas(codec, svc, key, gs, pre, j, v);
      }
    }
  }

  /** A vulnerability is emitted exactly when an entry that received an
      answer has an issue giving it: merging entries under one key loses
      none. */
  lemma EmittedMembers(codec: Codec, svc: Service, key: Handle -> MapKey, gs: seq<Group<Handle>>, es: seq<Entry<Handle>>, v: Vulnerability)
    requires AnswersSliceable(svc.fetch) && KeyDecides(codec, svc, key, gs, es)
    ensures v in Emitted(codec, svc, key, gs, es) <==> exists i :: (0 <= i < |es| && AnswerFor(codec, svc.fetch, gs, es[i]).Some?
      && v in IssueVulns(svc.rfc3339, es[i].ref, AnswerFor(codec, svc.fetch, gs, es[i]).value))
  {
    if v in Emitted(codec, svc, key, gs, es) {
      var i := EmittedFrom(codec, svc, key, gs, es, v);
    }
    if exists i :: (0 <= i < |es| && AnswerFor(codec, svc.fetch, gs, es[i]).Some?
      && v in IssueVulns(svc.rfc3339, es[i].ref, AnswerFor(codec, svc.fetch, gs, es[i]).value)) {
      var i :| 0 <= i < |es| && AnswerFor(codec, svc.fetch, gs, es[i]).Some?
        && v in IssueVulns(svc.rfc3339, es[i].ref, AnswerFor(codec, svc.fetch, gs, es[i]).value);
      EmittedHas(codec, svc, key, gs, es, i, v);
    }
  }

  /** The key computed from the enriched document is the one KeyAt names:
      the walk gives the component its references and keeps whether its
      nested list is nil. */
  lemma KeyAtFinal(codec: Codec, svc: Service, bom0: Bom, bom: Bom, h: Handle)
    requires Valid(bom0, h) && Valid(bom, h)
    requires Own(At(bom, h)) == Own(Update(codec, svc)(Own(At(bom0, h))))
    requires At(bom, h).components.NilList? == At(bom0, h).components.NilList?
    ensures KeyOfComponent(At(bom, h), h) == KeyAt(codec, svc, bom0, h)
  {
    var c0, c := At(bom0, h), At(bom, h);
    var u := Update(codec, svc)(c0);
    UpdateKeepsIdentity(codec, svc, c0);
    if codec.parse(c0.packageURL).Ok? {
      var p := codec.parse(c0.packageURL).value;
      EnrichRefsAppends(svc, c0, p);
      EnrichRefsAppends(svc, Own(c0), p);
      assert Update(codec, svc)(Own(c0)) == EnrichRefs(svc, Own(c0), p);
    }
    assert Own(c) == Own(u);
    if PointersNil(c) {
      assert c == Own(c) && u == Own(u);
    }
  }

  // ----- the enricher -----

  /** Enriching the next discovered component, whose purl parsed, keeps
      the progress invariant. */
  lemma EnrichStep(codec: Codec, svc: Service, bom0: Bom, bom: Bom, i: nat, p: PackageURL)
    requires Progress(bom0, bom, i, Update(codec, svc)) && i < |Discover(bom0)|
    requires codec.parse(At(bom0, Discover(bom0)[i]).packageURL) == Ok(p)
    ensures Valid(bom, Discover(bom0)[i])
    ensures Progress(bom0, Write(bom, Discover(bom0)[i], EnrichRefs(svc, At(bom, Discover(bom0)[i]), p)), i + 1, Update(codec, svc))
  {
    var h := Discover(bom0)[i];
    var c := At(bom, h);
    assert Own(c) == Own(At(bom0, h));
    ProgressStep(bom0, bom, i, Update(codec, svc), EnrichRefs(svc, c, p));
  }

  /** Passing over a component whose purl does not parse keeps it too. */
  lemma SkipStep(codec: Codec, svc: Service, bom0: Bom, bom: Bom, i: nat)
    requires Progress(bom0, bom, i, Update(codec, svc)) && i < |Discover(bom0)|
    requires codec.parse(At(bom0, Discover(bom0)[i]).packageURL).Err?
    ensures Progress(bom0, bom, i + 1, Update(codec, svc))
  {
    ProgressSkip(bom0, bom, i, Update(codec, svc));
  }

  /** The next discovered component, still as it was, gives the next entry. */
  lemma EntryAt(codec: Codec, svc: Service, bom0: Bom, bom: Bom, i: nat)
    requires Progress(bom0, bom, i, Update(codec, svc)) && i < |Discover(bom0)|
    ensures Valid(bom, Discover(bom0)[i])
    ensures Entries(codec, bom0)[i] ==
      Entry(Discover(bom0)[i], At(bom, Discover(bom0)[i]).bomRef, codec.parse(At(bom, Discover(bom0)[i]).packageURL))
  {
    var h := Discover(bom0)[i];
    assert Own(At(bom, h)) == Own(At(bom0, h));
  }

  /** The grouping loop: the references are added to each component whose
      purl parses, and the component joins the group of its key. */
  method GroupComponents(codec: Codec, svc: Service, bom0: Bom) returns (bom: Bom, groups: seq<Group<Handle>>)
    ensures Progress(bom0, bom, |Discover(bom0)|, Update(codec, svc))
    ensures forall g :: Valid(bom0, g) ==> Valid(bom, g) && At(bom, g).components.NilList? == At(bom0, g).components.NilList?
    ensures groups == Groups(codec, Entries(codec, bom0))
  {
    var comps := DiscoverCDXComponents(bom0);
    ghost var es := Entries(codec, bom0);
    bom := bom0;
    groups := [];
    var index: map<string, nat> := map[];
    ProgressStart(bom0, Update(codec, svc));
    var i := 0;
    while i < |comps|
      invariant 0 <= i <= |comps| && comps == Discover(bom0)
      invariant Progress(bom0, bom, i, Update(codec, svc))
      invariant forall g :: Valid(bom0, g) ==> Valid(bom, g) && At(bom, g).components.NilList? == At(bom0, g).components.NilList?
      invariant groups == Groups(codec, es[..i])
      invariant Indexes(index, groups)
    {
      var h := comps[i];
      EntryAt(codec, svc, bom0, bom, i);
      GroupsNext(codec, es, i);
      var component := At(bom, h);
      var parsed := codec.parse(component.packageURL);
      if parsed.Err? {
        SkipStep(codec, svc, bom0, bom, i);
      } else {
        EnrichStep(codec, svc, bom0, bom, i, parsed.value);
        var n := EnrichRefs(svc, component, parsed.value);
        EnrichRefsAppends(svc, component, parsed.value);
        forall g | Valid(bom0, g)
          ensures Valid(Write(bom, h, n), g) && At(Write(bom, h, n), g).components.NilList? == At(bom0, g).components.NilList?
        {
          WriteKeepsNil(bom, h, n, g);
        }
        bom := Write(bom, h, n);
        GroupsDistinctKeys(codec, es[..i]);
        groups, index := AddToGroups(codec, groups, index, Entry(h, component.bomRef, parsed));
      }
      i := i + 1;
    }
    assert es[..|comps|] == es;
  }

  /** The inner vulnerability loop over one component's issues. */
  method ComponentVulnerabilities(rfc3339: Time -> string, bomRef: string, issues: seq<Issue>) returns (vulns: seq<Vulnerability>)
    requires forall i :: 0 <= i < |issues| ==> Sliceable(issues[i])
    ensures vulns == IssueVulns(rfc3339, bomRef, issues)
  {
    vulns := [];
    var j := 0;
    while j < |issues|
      invariant 0 <= j <= |issues|
      invariant vulns == IssueVulns(rfc3339, bomRef, issues[..j])
    {
      assert issues[..j + 1][..j] == issues[..j];
      var v := IssueToVulnerability(rfc3339, bomRef, issues[j]);
      if v.Some? {
        vulns := vulns + [v.value];
      }
      j := j + 1;
    }
    assert issues[..|issues|] == issues;
  }

  /** The vulnerability loop over the map: the answers each entry
      received are filed under the key of its component in the enriched
      document, and each key's issues give vulnerabilities once. */
  method EmitVulnerabilities(codec: Codec, svc: Service, key: Handle -> MapKey, bom: Bom, groups: seq<Group<Handle>>, es: seq<Entry<Handle>>,
    data: map<Handle, seq<Issue>>) returns (vulns: seq<Vulnerability>)
    requires AnswersSliceable(svc.fetch)
    requires Receives(codec, svc.fetch, groups, es, data)
    requires forall i :: 0 <= i < |es| ==> (Valid(bom, es[i].member)
      && KeyOfComponent(At(bom, es[i].member), es[i].member) == key(es[i].member))
    ensures vulns == Emitted(codec, svc, key, groups, es)
  {
    vulns := [];
    var filed: set<MapKey> := {};
    var i := 0;
    while i < |es|
      invariant 0 <= i <= |es|
      invariant vulns == Emitted(codec, svc, key, groups, es[..i])
      invariant filed == FiledKeys(codec, svc, key, groups, es[..i])
    {
      assert es[..i + 1][..i] == es[..i];
      var h := es[i].member;
      if h in data {
        var k := KeyOfComponent(At(bom, h), h);
        if k !in filed {
          var vs := ComponentVulnerabilities(svc.rfc3339, es[i].ref, data[h]);
          vulns := vulns + vs;
          filed := filed + {k};
        }
      }
      i := i + 1;
    }
    assert es[..|es|] == es;
  }

  /** The groups of a document's components. */
  function SnykGroups(codec: Codec, bom: Bom): seq<Group<Handle>> {
    Groups(codec, Entries(codec, bom))
  }

  /** The vulnerabilities the enricher produces for a document. */
  function SnykVulnerabilities(codec: Codec, svc: Service, bom: Bom): seq<Vulnerability>
    requires AnswersSliceable(svc.fetch)
  {
    Emitted(codec, svc, KeysOf(codec, svc, bom), SnykGroups(codec, bom), Entries(codec, bom))
  }

  /** The vulnerabilities of a document are exactly those of the issues
      each discovered component with a parsable purl receives: components
      filed under one key lose none. */
  lemma SnykVulnerabilitiesMembers(codec: Codec, svc: Service, bom: Bom, v: Vulnerability)
    requires AnswersSliceable(svc.fetch)
    ensures var es, gs := Entries(codec, bom), SnykGroups(codec, bom);
      v in SnykVulnerabilities(codec, svc, bom) <==> exists i :: (0 <= i < |es| && AnswerFor(codec, svc.fetch, gs, es[i]).Some?
        && v in IssueVulns(svc.rfc3339, es[i].ref, AnswerFor(codec, svc.fetch, gs, es[i]).value))
  {
    var es, gs := Entries(codec, bom), SnykGroups(codec, bom);
    EntriesKeyDecide(codec, svc, bom, gs, es);
    EmittedMembers(codec, svc, KeysOf(codec, svc, bom), gs, es, v);
  }

  /** enrichCycloneDX. auth and org are the outcomes of authenticating and of
      finding the organisation. A failed organisation lookup gives a nil
      document and no request; so does a failed authentication, where Go
      logs a fatal error and ends the process. Otherwise every component
      carries its Snyk references, one request is made per distinct purl
      key, and the vulnerabilities are those of SnykVulnerabilities; the
      document's vulnerability list is replaced only when there is at
      least one. */
  method EnrichCycloneDX(codec: Codec, svc: Service, auth: Result<string>, org: Result<string>, bom0: Bom)
    returns (r: Option<Bom>, requests: seq<PackageURL>)
    requires AnswersSliceable(svc.fetch)
    ensures auth.Err? || org.Err? ==> r.None? && requests == []
    ensures auth.Ok? && org.Ok? ==> r.Some?
    ensures r.Some? ==> forall g :: Valid(r.value, g) <==> Valid(bom0, g)
    ensures r.Some? ==> KeepsNil(bom0, r.value)
    ensures r.Some? ==> forall g :: Valid(bom0, g) ==>
      Valid(r.value, g) && Own(At(r.value, g)) == Own(Update(codec, svc)(Own(At(bom0, g))))
    ensures r.Some? ==> (|requests| == |SnykGroups(codec, bom0)|
      && forall j :: 0 <= j < |requests| ==> requests[j] == SnykGroups(codec, bom0)[j].purl)
    ensures r.Some? ==> (r.value.vulnerabilities ==
      if SnykVulnerabilities(codec, svc, bom0) != [] then Some(SnykVulnerabilities(codec, svc, bom0)) else bom0.vulnerabilities)
  {
    if auth.Err? || org.Err? {
      return None, [];
    }
    var bom, groups := GroupComponents(codec, svc, bom0);
    var es := Entries(codec, bom0);
    EntriesDistinct(codec, bom0);
    GroupsAreDisjoint(codec, es);
    var data;
    data, requests := FetchGroups(groups, svc.fetch);
    DeliveredReceives(codec, svc.fetch, es, data);
    ProgressAll(bom0, bom, Update(codec, svc));
    forall i | 0 <= i < |es|
      ensures Valid(bom, es[i].member) && KeyOfComponent(At(bom, es[i].member), es[i].member) == KeysOf(codec, svc, bom0)(es[i].member)
    {
      KeyAtFinal(codec, svc, bom0, bom, es[i].member);
    }
    var vulns := EmitVulnerabilities(codec, svc, KeysOf(codec, svc, bom0), bom, groups, es, data);
    if |vulns| > 0 {
      forall g ensures (Valid(bom.(vulnerabilities := Some(vulns)), g) <==> Valid(bom, g))
        && (Valid(bom, g) ==> At(bom.(vulnerabilities := Some(vulns)), g) == At(bom, g))
      {
        VulnerabilitiesApart(bom, Some(vulns), g);
      }
      bom := bom.(vulnerabilities := Some(vulns));
    }
    r := Some(bom);
  }
}
