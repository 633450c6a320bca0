/** The Snyk issues API answer (the parts the enrichers read) and the pieces
    of its translation into CycloneDX vulnerabilities that the two Snyk
    CycloneDX enrichers share: problems become CWE numbers and references,
    slot references become advisories, and severity levels and CVSS versions
    become CycloneDX severities and scoring methods.

    Pointers the source dereferences without a nil check (a slot
    reference's title and URL, a severity's level, version and vector) are
    plain values here. */
module SnykIssues {
  import opened Base
  import opened GoStrings
  import opened Cdx
  import opened EcoTypes

  datatype Problem = Problem(id: string, source: string)

  datatype SlotReference = SlotReference(title: string, url: string)

  datatype SeverityEntry = SeverityEntry(source: Option<string>, score: Option<real>, level: string, version: string, vector: string)

  datatype Issue = Issue(
    id: Option<string>,
    title: Option<string>,
    description: Option<string>,
    createdAt: Option<Time>,
    updatedAt: Option<Time>,
    problems: Option<seq<Problem>>,
    slotReferences: Option<seq<SlotReference>>,
    severities: Option<seq<SeverityEntry>>)

  /** The outcome of one issues request: an error (the request or the
      decoding of its body failed), or the decoded document's Data, which
      may be nil. */
  type IssuesAnswer = Result<Option<seq<Issue>>>

  /** A nil-able list that is nil until something is appended. */
  function NilIfEmpty<T>(s: seq<T>): (r: Option<seq<T>>)
    ensures Elems(r) == s
    ensures r.None? <==> s == []
  {
    if s == [] then None else Some(s)
  }

  /** Appending to a list that starts nil, one element at a time, gives the
      same list as building it whole. */
  lemma AppendNilIfEmpty<T>(s: seq<T>, x: T)
    ensures Append(NilIfEmpty(s), x) == NilIfEmpty(s + [x])
  {
  }

  /** levelToCdxSeverity. */
  function LevelToCdxSeverity(level: string): (s: Severity)
    ensures s == SeverityCritical <==> level == "critical"
    ensures s == SeverityHigh <==> level == "high"
    ensures s == SeverityMedium <==> level == "medium"
    ensures s == SeverityLow <==> level == "low"
    ensures s == SeverityUnknown <==> level !in {"critical", "high", "medium", "low"}
  {
    match level
    case "critical" => SeverityCritical
    case "high" => SeverityHigh
    case "medium" => SeverityMedium
    case "low" => SeverityLow
    case _ => SeverityUnknown
  }

  /** versionToCdxMethod. */
  function VersionToCdxMethod(version: string): (m: ScoringMethod)
    ensures m == ScoringMethodCVSSv3 <==> version == "3.0"
    ensures m == ScoringMethodCVSSv31 <==> version == "3.1"
    ensures m == ScoringMethodCVSSv4 <==> version == "4.0"
    ensures m == ScoringMethodOther <==> version !in {"3.0", "3.1", "4.0"}
  {
    match version
    case "3.0" => ScoringMethodCVSSv3
    case "3.1" => ScoringMethodCVSSv31
    case "4.0" => ScoringMethodCVSSv4
    case _ => ScoringMethodOther
  }

  // ----- problems -----

  /** The source slices a CWE problem's id from its fifth byte on, so a CWE
      id shorter than four bytes would make it panic. */
  predicate CweIdsSliceable(ps: seq<Problem>) {
    forall i :: 0 <= i < |ps| && ps[i].source == "CWE" ==> |ps[i].id| >= 4
  }

  /** strconv.Atoi of a CWE id after its first four bytes. */
  function CweOf(id: string): Option<int>
    requires |id| >= 4
  {
    ParseInt64(id[4..])
  }

  /** "CWE-n" gives n. */
  lemma CweOfDecimal(n: int)
    requires 0 <= n <= MaxInt64
    ensures CweOf("CWE-" + Itoa(n)) == Some(n)
  {
    ParseItoa(n);
    assert ("CWE-" + Itoa(n))[4..] == Itoa(n);
  }

  /** A CWE id with a non-digit after its sign gives nothing. */
  lemma CweOfRejects(id: string, i: int)
    requires 4 < i < |id| && !IsDigit(id[i])
    ensures CweOf(id) == None
  {
    ParseRejectsNonDigit(id[4..], i - 4);
  }

  const ReferenceSources: set<string> := {"CVE", "GHAS", "RHSA"}

  /** The CWE numbers of the problems, in order: one per CWE problem whose id
      reads as a number. */
  function Cwes(ps: seq<Problem>): seq<int>
    requires CweIdsSliceable(ps)
    decreases |ps|
  {
    if |ps| == 0 then []
    else
      var last := ps[|ps| - 1];
      var rest := Cwes(ps[..|ps| - 1]);
      if last.source == "CWE" && CweOf(last.id).Some? then rest + [CweOf(last.id).value] else rest
  }

  /** The references of the problems, in order: one per CVE, GHAS or RHSA
      problem, with the problem's source as the reference source's name. */
  function References(ps: seq<Problem>): seq<VulnerabilityReference>
    decreases |ps|
  {
    if |ps| == 0 then []
    else
      var last := ps[|ps| - 1];
      var rest := References(ps[..|ps| - 1]);
      if last.source in ReferenceSources then rest + [VulnerabilityReference(last.id, Source(last.source, ""))] else rest
  }

  /** n is a CWE number of the problems exactly when some CWE problem's id
      reads as n. */
  lemma {:induction false} CwesMembers(ps: seq<Problem>, n: int)
    requires CweIdsSliceable(ps)
    ensures n in Cwes(ps) <==> exists i :: 0 <= i < |ps| && ps[i].source == "CWE" && CweOf(ps[i].id) == Some(n)
    decreases |ps|
  {
    if |ps| > 0 {
      var pre := ps[..|ps| - 1];
      CwesMembers(pre, n);
      assert forall i :: 0 <= i < |pre| ==> ps[i] == pre[i];
    }
  }

  /** A reference comes from a CVE, GHAS or RHSA problem, and every such
      problem gives one. */
  lemma {:induction false} ReferencesMembers(ps: seq<Problem>, r: VulnerabilityReference)
    ensures r in References(ps) <==> exists i :: 0 <= i < |ps| && ps[i].source in ReferenceSources && r == VulnerabilityReference(ps[i].id, Source(ps[i].source, ""))
    decreases |ps|
  {
    if |ps| > 0 {
      var pre := ps[..|ps| - 1];
      ReferencesMembers(pre, r);
      assert forall i :: 0 <= i < |pre| ==> ps[i] == pre[i];
    }
  }

  /** Problems of other sources contribute nothing. */
  lemma {:induction false} OtherSourcesIgnored(ps: seq<Problem>, p: Problem)
    requires CweIdsSliceable(ps) && p.source != "CWE" && p.source !in ReferenceSources
    ensures CweIdsSliceable(ps + [p])
    ensures Cwes(ps + [p]) == Cwes(ps) && References(ps + [p]) == References(ps)
  {
    assert (ps + [p])[..|ps|] == ps;
  }

  /** The problem loop: CWE numbers and references, each list nil until its
      first element. */
  method MapProblems(ps: seq<Problem>) returns (cwes: Option<seq<int>>, refs: Option<seq<VulnerabilityReference>>)
    requires CweIdsSliceable(ps)
    ensures cwes == NilIfEmpty(Cwes(ps))
    ensures refs == NilIfEmpty(References(ps))
  {
    cwes, refs := None, None;
    var i := 0;
    while i < |ps|
      invariant 0 <= i <= |ps|
      invariant cwes == NilIfEmpty(Cwes(ps[..i]))
      invariant refs == NilIfEmpty(References(ps[..i]))
    {
      var problem := ps[i];
      assert ps[..i + 1][..i] == ps[..i];
      if problem.source == "CWE" {
        var cwe := CweOf(problem.id);
        if cwe.Some? {
          cwes := Append(cwes, cwe.value);
        }
      } else if problem.source in ReferenceSources {
        refs := Append(refs, VulnerabilityReference(problem.id, Source(problem.source, "")));
      }
      i := i + 1;
    }
    assert ps[..|ps|] == ps;
  }

  /** The advisories of the slot references, one per reference, in order. */
  function Advisories(rs: seq<SlotReference>): (r: seq<Advisory>)
    ensures |r| == |rs|
    ensures forall i :: 0 <= i < |rs| ==> r[i].title == rs[i].title && r[i].url == rs[i].url
    decreases |rs|
  {
    if |rs| == 0 then []
    else Advisories(rs[..|rs| - 1]) + [Advisory(rs[|rs| - 1].title, rs[|rs| - 1].url)]
  }

  /** The slot-reference loop. */
  method MapAdvisories(rs: Option<seq<SlotReference>>) returns (ads: Option<seq<Advisory>>)
    ensures ads == NilIfEmpty(Advisories(Elems(rs)))
  {
    ads := None;
    var list := Elems(rs);
    var i := 0;
    while i < |list|
      invariant 0 <= i <= |list|
      invariant ads == NilIfEmpty(Advisories(list[..i]))
    {
      assert list[..i + 1][..i] == list[..i];
      ads := Append(ads, Advisory(list[i].title, list[i].url));
      i := i + 1;
    }
    assert list[..|list|] == list;
  }
}
