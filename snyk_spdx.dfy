/** The Snyk enricher for SPDX documents: every package with a parsable
    purl gets the Snyk Advisor and Snyk Vulnerability DB references;
    packages are grouped by purl so that one issues request is made per
    distinct package; each issue with an id becomes a security advisory
    reference on every package of its group.

    The Snyk service is a set of oracles: the two reference URLs, the issues
    request (with the decoding of its body) and url.PathEscape. The document
    is a value the enricher returns; the source changes the packages in
    place through pointers. The map from packages to issues is keyed by
    package position and read in package order: each entry writes only its
    own package, so the order of the source's map walk does not show. */
module SnykSpdx {
  import opened Base
  import opened Spdx
  import opened Purl
  import opened UtilsSpdx
  import opened Grouping
  import opened SnykIssues

  const AdvisorComment: string := "Snyk Advisor"
  const VulnDBComment: string := "Snyk Vulnerability DB"
  const AdvisorRefType: string := "advisory"
  const VulnDBRefType: string := "url"
  /** snykVulnerabilityDBWebURL. */
  const SnykVulnerabilityDBWebURL: string := "https://security.snyk.io"

  datatype Service = Service(
    advisorURL: PackageURL -> string,
    vulnURL: PackageURL -> string,
    fetch: PackageURL -> IssuesAnswer,
    pathEscape: string -> string)

  // ----- reference enrichers -----

  /** One Snyk reference enricher: nothing for an empty URL, otherwise an
      OTHER reference of the given type is appended. */
  function AddSnykRef(p: Package, url: string, refType: string, comment: string): (q: Package)
    ensures url == "" ==> q == p
    ensures url != "" ==> q.externalRefs == p.externalRefs + [ExternalRef(CategoryOther, refType, url, comment)]
    ensures q.(externalRefs := p.externalRefs) == p
  {
    if url == "" then p else AddRef(p, ExternalRef(CategoryOther, refType, url, comment))
  }

  /** spdxEnrichers in order: the Advisor reference, then the Vulnerability
      DB reference. */
  function EnrichRefs(svc: Service, p: Package, purl: PackageURL): Package {
    var withAdvisor := AddSnykRef(p, svc.advisorURL(purl), AdvisorRefType, AdvisorComment);
    AddSnykRef(withAdvisor, svc.vulnURL(purl), VulnDBRefType, VulnDBComment)
  }

  /** The references come after the existing ones, Advisor first, each only
      when its URL is not empty; nothing else changes, and the package's
      purl stays what it was. */
  lemma EnrichRefsAppends(codec: Codec, svc: Service, p: Package, purl: PackageURL)
    ensures EnrichRefs(svc, p, purl).externalRefs == p.externalRefs
      + (if svc.advisorURL(purl) != "" then [ExternalRef(CategoryOther, AdvisorRefType, svc.advisorURL(purl), AdvisorComment)] else [])
      + (if svc.vulnURL(purl) != "" then [ExternalRef(CategoryOther, VulnDBRefType, svc.vulnURL(purl), VulnDBComment)] else [])
    ensures EnrichRefs(svc, p, purl).(externalRefs := p.externalRefs) == p
    ensures PurlOf(codec, EnrichRefs(svc, p, purl)) == PurlOf(codec, p)
  {
    var q := EnrichRefs(svc, p, purl);
    var added := q.externalRefs[|p.externalRefs|..];
    assert q.externalRefs == p.externalRefs + added;
    assert forall k :: 0 <= k < |added| ==> added[k].refType != "purl";
    NonPurlRefsKeepPurl(p.externalRefs, added);
  }

  /** References that are not of type "purl" do not change which purl
      reference comes first. */
  lemma {:induction false} NonPurlRefsKeepPurl(refs: seq<ExternalRef>, later: seq<ExternalRef>)
    requires forall k :: 0 <= k < |later| ==> later[k].refType != "purl"
    ensures FirstPurlLocator(refs + later) == FirstPurlLocator(refs)
    decreases |refs|
  {
    if |refs| == 0 {
      assert refs + later == later;
      FirstPurlLocatorIsFirst(later);
    } else {
      assert (refs + later)[1..] == refs[1..] + later;
      if refs[0].refType != "purl" {
        NonPurlRefsKeepPurl(refs[1..], later);
      }
    }
  }

  // ----- issues to references -----

  /** The security advisory reference of an issue with an id: its locator is
      the issue's page in the Vulnerability DB, its comment the title when
      there is one. */
  function AdvisoryRef(pathEscape: string -> string, issue: Issue): (r: ExternalRef)
    requires issue.id.Some?
    ensures r.category == CategorySecurity && r.refType == SecurityAdvisory
    ensures r.locator == SnykVulnerabilityDBWebURL + "/vuln/" + pathEscape(issue.id.value)
    ensures r.comment == if issue.title.Some? then issue.title.value else ""
  {
    ExternalRef(CategorySecurity, SecurityAdvisory, SnykVulnerabilityDBWebURL + "/vuln/" + pathEscape(issue.id.value), issue.title.GetOr(""))
  }

  /** The references of the issues that have an id, in order. */
  function IssueRefs(pathEscape: string -> string, issues: seq<Issue>): seq<ExternalRef>
    decreases |issues|
  {
    if |issues| == 0 then []
    else
      var last := issues[|issues| - 1];
      var rest := IssueRefs(pathEscape, issues[..|issues| - 1]);
      if last.id.Some? then rest + [AdvisoryRef(pathEscape, last)] else rest
  }

  /** A reference comes from an issue with an id, and every issue with an id
      gives one; an issue without an id gives nothing. */
  lemma {:induction false} IssueRefsMembers(pathEscape: string -> string, issues: seq<Issue>, r: ExternalRef)
    ensures r in IssueRefs(pathEscape, issues) <==>
      exists i :: 0 <= i < |issues| && issues[i].id.Some? && r == AdvisoryRef(pathEscape, issues[i])
    decreases |issues|
  {
    if |issues| > 0 {
      var n := |issues| - 1;
      var pre := issues[..n];
      IssueRefsMembers(pathEscape, pre, r);
      if r in IssueRefs(pathEscape, issues) {
        if r in IssueRefs(pathEscape, pre) {
          var i :| 0 <= i < |pre| && pre[i].id.Some? && r == AdvisoryRef(pathEscape, pre[i]);
          assert issues[i] == pre[i];
        }
      } else {
        forall i | 0 <= i < |issues| && issues[i].id.Some? ensures r != AdvisoryRef(pathEscape, issues[i]) {
          if i < n {
            assert issues[i] == pre[i];
          }
        }
      }
    }
  }

  /** One reference per issue with an id: as many references as issues when
      every issue has an id, none when no issue has one. */
  lemma {:induction false} IssueRefsCount(pathEscape: string -> string, issues: seq<Issue>)
    ensures |IssueRefs(pathEscape, issues)| <= |issues|
    ensures (forall i :: 0 <= i < |issues| ==> issues[i].id.Some?) ==> |IssueRefs(pathEscape, issues)| == |issues|
    ensures (forall i :: 0 <= i < |issues| ==> issues[i].id.None?) ==> IssueRefs(pathEscape, issues) == []
    decreases |issues|
  {
    if |issues| > 0 {
      var pre := issues[..|issues| - 1];
      IssueRefsCount(pathEscape, pre);
      assert forall i :: 0 <= i < |pre| ==> pre[i] == issues[i];
    }
  }

  /** The reference of lib/snyk/enrich_test.go's numpy issue. */
  lemma NumpyAdvisory(pathEscape: string -> string)
    requires pathEscape("SNYK-PYTHON-NUMPY-73513") == "SNYK-PYTHON-NUMPY-73513"
    ensures IssueRefs(pathEscape, [Issue(Some("SNYK-PYTHON-NUMPY-73513"), Some("Arbitrary Code Execution"), None, None, None, None, None, None)])
      == [ExternalRef("SECURITY", "advisory", "https://security.snyk.io/vuln/SNYK-PYTHON-NUMPY-73513", "Arbitrary Code Execution")]
  {
    var issues := [Issue(Some("SNYK-PYTHON-NUMPY-73513"), Some("Arbitrary Code Execution"), None, None, None, None, None, None)];
    assert issues[..0] == [];
    NumpyLocator();
  }

  lemma NumpyLocator()
    ensures SnykVulnerabilityDBWebURL + "/vuln/" + "SNYK-PYTHON-NUMPY-73513" == "https://security.snyk.io/vuln/SNYK-PYTHON-NUMPY-73513"
  {
  }

  /** The vulnerability loop for one package: a reference per issue with an
      id, after the existing references. */
  method AddIssueRefs(pathEscape: string -> string, p: Package, issues: seq<Issue>) returns (q: Package)
    ensures q == p.(externalRefs := p.externalRefs + IssueRefs(pathEscape, issues))
  {
    q := p;
    var j := 0;
    while j < |issues|
      invariant 0 <= j <= |issues|
      invariant q == p.(externalRefs := p.externalRefs + IssueRefs(pathEscape, issues[..j]))
    {
      assert issues[..j + 1][..j] == issues[..j];
      var issue := issues[j];
      if issue.id.Some? {
        q := AddRef(q, AdvisoryRef(pathEscape, issue));
      }
      j := j + 1;
    }
    assert issues[..|issues|] == issues;
  }

  // ----- the enricher -----

  /** The packages as grouping entries: a package is known by its position
      and its SPDX id. */
  function Entries(codec: Codec, doc: Document): (es: seq<Entry<nat>>)
    ensures |es| == |doc.packages|
    ensures forall i :: 0 <= i < |es| ==>
      es[i].member == i && es[i].ref == doc.packages[i].spdxId && es[i].purl == PurlOf(codec, doc.packages[i])
  {
    seq(|doc.packages|, i requires 0 <= i < |doc.packages| => Entry(i as nat, doc.packages[i].spdxId, PurlOf(codec, doc.packages[i])))
  }

  lemma EntriesDistinct(codec: Codec, doc: Document)
    ensures DistinctMembers(Entries(codec, doc))
  {
  }

  /** The groups of a document's packages. */
  function SnykGroups(codec: Codec, doc: Document): seq<Group<nat>> {
    Groups(codec, Entries(codec, doc))
  }

  /** The package after the grouping loop: its references when its purl
      parses, as it was otherwise. */
  function Grouped(codec: Codec, svc: Service, p: Package): Package {
    match PurlOf(codec, p)
    case Ok(purl) => EnrichRefs(svc, p, purl)
    case Err(_) => p
  }

  /** The security references package i receives: those of the issues its
      group's request answered with. */
  function IssueRefsOf(codec: Codec, svc: Service, doc: Document, i: int): seq<ExternalRef>
    requires 0 <= i < |doc.packages|
  {
    IssueRefs(svc.pathEscape, AnswerFor(codec, svc.fetch, SnykGroups(codec, doc), Entries(codec, doc)[i]).GetOr([]))
  }

  /** Package i of the enriched document. A package whose purl does not
      parse is left as it was; the others keep their fields and references
      and gain the Snyk references, then their issues' references. */
  function SnykPackage(codec: Codec, svc: Service, doc: Document, i: int): (q: Package)
    requires 0 <= i < |doc.packages|
    ensures PurlOf(codec, doc.packages[i]).Err? ==> q == doc.packages[i]
    ensures q.(externalRefs := doc.packages[i].externalRefs) == doc.packages[i]
    ensures q.externalRefs == Grouped(codec, svc, doc.packages[i]).externalRefs + IssueRefsOf(codec, svc, doc, i)
  {
    var p := Grouped(codec, svc, doc.packages[i]);
    if PurlOf(codec, doc.packages[i]).Err? then p
    else p.(externalRefs := p.externalRefs + IssueRefsOf(codec, svc, doc, i))
  }

  /** A package whose purl does not parse receives no issue. */
  lemma UnparsableGetsNothing(codec: Codec, svc: Service, doc: Document, i: int)
    requires 0 <= i < |doc.packages| && PurlOf(codec, doc.packages[i]).Err?
    ensures IssueRefsOf(codec, svc, doc, i) == []
  {
    EntriesDistinct(codec, doc);
    AnswerOfEntry(codec, svc.fetch, Entries(codec, doc), i);
  }

  /** Every package of a group gets the issues of one request: the one made
      for the purl of the first package with the same key. So two packages
      with the same key get the same issue references. */
  lemma IssuesFromFirst(codec: Codec, svc: Service, doc: Document, i: int)
    requires 0 <= i < |doc.packages| && PurlOf(codec, doc.packages[i]).Ok?
    ensures exists f :: (0 <= f <= i && PurlOf(codec, doc.packages[f]).Ok?
      && Key(codec, PurlOf(codec, doc.packages[f]).value) == Key(codec, PurlOf(codec, doc.packages[i]).value)
      && (forall f' :: 0 <= f' < f && PurlOf(codec, doc.packages[f']).Ok? ==>
            Key(codec, PurlOf(codec, doc.packages[f']).value) != Key(codec, PurlOf(codec, doc.packages[i]).value))
      && IssueRefsOf(codec, svc, doc, i) == IssueRefs(svc.pathEscape, Answer(svc.fetch(PurlOf(codec, doc.packages[f]).value)).GetOr([])))
  {
    var es := Entries(codec, doc);
    EntriesDistinct(codec, doc);
    AnswerFromFirst(codec, svc.fetch, es, i);
    var f :| 0 <= f <= i && es[f].purl.Ok? && KeyOf(codec, es[f]) == KeyOf(codec, es[i])
      && (forall f' :: 0 <= f' < f ==> KeyOf(codec, es[f']) != KeyOf(codec, es[i]))
      && AnswerFor(codec, svc.fetch, Groups(codec, es), es[i]) == Answer(svc.fetch(es[f].purl.value));
    forall f' | 0 <= f' < f && PurlOf(codec, doc.packages[f']).Ok?
      ensures Key(codec, PurlOf(codec, doc.packages[f']).value) != Key(codec, PurlOf(codec, doc.packages[i]).value)
    {
      assert KeyOf(codec, es[f']) != KeyOf(codec, es[i]);
    }
    var pf := PurlOf(codec, doc.packages[f]);
    assert pf == es[f].purl && PurlOf(codec, doc.packages[i]) == es[i].purl;
    assert Key(codec, pf.value) == Key(codec, PurlOf(codec, doc.packages[i]).value);
    assert IssueRefsOf(codec, svc, doc, i) == IssueRefs(svc.pathEscape, Answer(svc.fetch(pf.value)).GetOr([]));
  }

  /** The first i packages have been through the grouping loop and the
      others not yet. */
  predicate GroupedUpTo(codec: Codec, svc: Service, doc0: Document, packages: seq<Package>, i: nat) {
    i <= |packages| == |doc0.packages|
    && (forall k :: 0 <= k < i ==> packages[k] == Grouped(codec, svc, doc0.packages[k]))
    && (forall k :: i <= k < |packages| ==> packages[k] == doc0.packages[k])
  }

  /** Passing package i through the grouping loop. */
  lemma GroupedStep(codec: Codec, svc: Service, doc0: Document, packages: seq<Package>, i: nat)
    requires GroupedUpTo(codec, svc, doc0, packages, i) && i < |packages|
    ensures packages[i] == doc0.packages[i]
    ensures Entries(codec, doc0)[i] == Entry(i, packages[i].spdxId, PurlOf(codec, packages[i]))
    ensures GroupedUpTo(codec, svc, doc0, packages[i := Grouped(codec, svc, packages[i])], i + 1)
  {
  }

  /** The grouping loop: the references are added to each package whose
      purl parses, and the package joins the group of its key. */
  method GroupPackages(codec: Codec, svc: Service, doc0: Document) returns (doc: Document, groups: seq<Group<nat>>)
    ensures |doc.packages| == |doc0.packages|
    ensures forall i :: 0 <= i < |doc.packages| ==> doc.packages[i] == Grouped(codec, svc, doc0.packages[i])
    ensures groups == SnykGroups(codec, doc0)
  {
    ghost var es := Entries(codec, doc0);
    var packages := doc0.packages;
    groups := [];
    var index: map<string, nat> := map[];
    var i := 0;
    while i < |packages|
      invariant GroupedUpTo(codec, svc, doc0, packages, i)
      invariant groups == Groups(codec, es[..i])
      invariant Indexes(index, groups)
    {
      var pkg := packages[i];
      GroupsNext(codec, es, i);
      GroupedStep(codec, svc, doc0, packages, i);
      var purl := GetPurlFromSPDXPackage(codec, pkg);
      if purl.Ok? {
        packages := packages[i := EnrichRefs(svc, pkg, purl.value)];
        GroupsDistinctKeys(codec, es[..i]);
        groups, index := AddToGroups(codec, groups, index, Entry(i, pkg.spdxId, purl));
      } else {
        assert packages == packages[i := Grouped(codec, svc, pkg)];
      }
      i := i + 1;
    }
    assert es[..|packages|] == es;
    doc := doc0.(packages := packages);
  }

  /** The loop over the map of answers: every package that holds issues gets
      their references. */
  method AddVulnerabilityRefs(pathEscape: string -> string, doc0: Document, data: map<nat, seq<Issue>>) returns (doc: Document)
    ensures |doc.packages| == |doc0.packages|
    ensures forall i :: 0 <= i < |doc.packages| ==> (doc.packages[i] ==
      if i in data then doc0.packages[i].(externalRefs := doc0.packages[i].externalRefs + IssueRefs(pathEscape, data[i]))
      else doc0.packages[i])
  {
    var packages := doc0.packages;
    var i := 0;
    while i < |packages|
      invariant 0 <= i <= |packages| == |doc0.packages|
      invariant forall k :: 0 <= k < i ==> (packages[k] ==
        if k in data then doc0.packages[k].(externalRefs := doc0.packages[k].externalRefs + IssueRefs(pathEscape, data[k]))
        else doc0.packages[k])
      invariant forall k :: i <= k < |packages| ==> packages[k] == doc0.packages[k]
    {
      if i in data {
        var q := AddIssueRefs(pathEscape, packages[i], data[i]);
        packages := packages[i := q];
      }
      i := i + 1;
    }
    doc := doc0.(packages := packages);
  }

  /** enrichSPDX. auth and org are the outcomes of authenticating and of
      finding the organisation. Go logs a fatal error and ends the process
      on either failure; here either gives a nil document and no request. Otherwise package i becomes SnykPackage(i), and one request
      is made per group, for the purl of the group's first package. */
  method EnrichSPDX(codec: Codec, svc: Service, auth: Result<string>, org: Result<string>, doc0: Document)
    returns (r: Option<Document>, requests: seq<PackageURL>)
    ensures auth.Err? || org.Err? ==> r.None? && requests == []
    ensures auth.Ok? && org.Ok? ==> r.Some?
    ensures r.Some? ==> (|r.value.packages| == |doc0.packages|
      && forall i :: 0 <= i < |doc0.packages| ==> r.value.packages[i] == SnykPackage(codec, svc, doc0, i))
    ensures r.Some? ==> (|requests| == |SnykGroups(codec, doc0)|
      && forall j :: 0 <= j < |requests| ==> requests[j] == SnykGroups(codec, doc0)[j].purl)
  {
    if auth.Err? || org.Err? {
      return None, [];
    }
    var doc, groups := GroupPackages(codec, svc, doc0);
    ghost var es := Entries(codec, doc0);
    EntriesDistinct(codec, doc0);
    GroupsAreDisjoint(codec, es);
    var data;
    data, requests := FetchGroups(groups, svc.fetch);
    DeliveredReceives(codec, svc.fetch, es, data);
    var doc' := AddVulnerabilityRefs(svc.pathEscape, doc, data);
    forall i | 0 <= i < |doc0.packages| ensures doc'.packages[i] == SnykPackage(codec, svc, doc0, i) {
      FinalPackage(codec, svc, doc0, data, i);
    }
    r := Some(doc');
  }

  /** What one package holds at the end, given what the fetch loop
      delivered. */
  lemma FinalPackage(codec: Codec, svc: Service, doc0: Document, data: map<nat, seq<Issue>>, i: int)
    requires 0 <= i < |doc0.packages|
    requires Receives(codec, svc.fetch, SnykGroups(codec, doc0), Entries(codec, doc0), data)
    ensures (var p := Grouped(codec, svc, doc0.packages[i]);
      (if i in data then p.(externalRefs := p.externalRefs + IssueRefs(svc.pathEscape, data[i])) else p)
      == SnykPackage(codec, svc, doc0, i))
  {
    var es := Entries(codec, doc0);
    assert es[i].member == i;
    var p := Grouped(codec, svc, doc0.packages[i]);
    if i !in data {
      assert IssueRefsOf(codec, svc, doc0, i) == IssueRefs(svc.pathEscape, []);
      assert p.externalRefs + [] == p.externalRefs;
    }
  }
}
