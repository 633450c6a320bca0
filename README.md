# parlay enrichment core in Dafny

parlay reads a software bill of materials (SBOM) and enriches it with data
from outside sources. The format is CycloneDX or SPDX 2.3. The sources are:

- ecosyste.ms: package metadata and licences;
- Snyk: vulnerabilities and advisory links;
- deps.dev: repository metadata;
- OpenSSF Scorecard: a link to the repository's scorecard.

This project models the code that decides what each enricher writes into the
document. The network clients are function-valued parameters (oracles). The
model states, and proves, how their answers turn into components,
properties, references, licences and vulnerabilities.

One Dafny module per Go file of the core:

| module | Go file |
|---|---|
| `UtilsCdx` | internal/utils/cdx.go — pre-order discovery of every component of a CycloneDX BOM, as handles (root and index path) |
| `UtilsSpdx` | internal/utils/spdx.go — the purl of an SPDX package, and the split of an ecosyste.ms licence string |
| `EcoPackage` | lib/ecosystems/package.go — user agent, purl type to registry, purl to package name |
| `LibPackage` | lib/package.go — the older registry and name mapping, and the Snyk token guard |
| `DepsRepo` (with `GoUrl`) | lib/deps/repo.go — repository URL normalisation, the project cache, the deps.dev lookups, Retry-After parsing, the retry back-off, and the related-project choice |
| `EcoCache` | lib/ecosystems/cache.go — the in-memory response cache, a class with two maps |
| `SnykRateLimit` | lib/snyk/ratelimit.go — the shared back-off deadline, the wait loop, the transport, and the reset-header parser |
| `Grouping`, `SnykIssues`, `SnykCdx` | lib/snyk/enrich_cyclonedx.go — purl grouping, issue-to-vulnerability mapping, and the advisor and vulnerability-DB references |
| `SnykSpdx` | lib/snyk/enrich_spdx.go — the same for SPDX packages |
| `DepsCdx` | lib/deps/enrich_cyclonedx.go — deps.dev properties on components, recursively |
| `DepsSpdx` | lib/deps/enrich_spdx.go — repository references on SPDX packages |
| `DepsEnrichOld` | lib/deps/enrich.go — the older deps.dev enricher |
| `EcoCdx` | lib/ecosystems/enrich_cyclonedx.go — the pointer-mutating ecosyste.ms enrichers and `enrichCDX` |
| `EcoEnrich` | lib/ecosystems/enrich.go — the by-value ecosyste.ms enrichers and the `EnrichSBOM` dispatch |
| `EcoSpdx`, `EcoSpdx23` | lib/ecosystems/enrich_spdx.go and lib/ecosystems/spdx2_3.go |
| `LibEnrich` | lib/enrich.go — the older ecosyste.ms and Snyk enrichers |
| `ScorecardEnrich`, `ScorecardCdx`, `ScorecardSpdx` | lib/scorecard/enrich.go, enrich_cyclonedx.go, enrich_spdx.go |
| `Sbom` | lib/sbom/decode.go — format sniffing and decode dispatch |
| `Flags` | internal/flags/format.go — the `--format` flag value |

Shared modules:

- `Base`: Option and Result, and nil-able slice appends.
- `GoStrings`: the `strings` and `strconv` functions used.
- `Cdx`, `Spdx`: the document types.
- `Purl`: package URLs, with parsing and printing as an oracle.
- `EcoTypes`: ecosyste.ms responses and a small JSON value type.

Conventions:

- Go pointers to slices become `Option<seq<T>>`. `Append` is the
  `if p == nil { p = &[]T{x} } else { *p = append(*p, x) }` idiom.
- A write through a `*cdx.Component` handle is `Write(bom, handle, node)`.
  The walks prove that every discovered component ends up with its own
  update, and that the components they do not touch keep their fields.
- A Go call that would panic on some input (a nil dereference, a failed
  type assertion, a slice out of range) becomes a precondition of the
  model. Each such precondition is listed under "Left out".
- Go `int64` overflow in `time.Duration(sec) * time.Second` is modelled
  exactly, as wrap-around modulo 2^64.

## Model

| member | source | states |
|---|---|---|
| UtilsCdx.TraverseComponent | internal/utils/cdx.go:7-15 | the list grows by exactly the pre-order of the subtree: the component first, then each child's subtree in array order |
| UtilsCdx.DiscoverCDXComponents | internal/utils/cdx.go:17-29 | the handles are Discover: the metadata subtree (when present), then every top-level subtree in order, each in depth-first pre-order |
| UtilsCdx.DiscoverLength | internal/utils/cdx.go:17-29 | one handle per component of the document |
| UtilsCdx.DiscoverEmpty | internal/utils/cdx.go:19-27 | no metadata component and nil components give an empty list |
| UtilsCdx.DiscoverExample | internal/utils/cdx.go:17-29 | a metadata component with one child, plus one top-level component, gives three handles in pre-order |
| UtilsCdx.DiscoverValid | internal/utils/cdx.go:7-29 | every returned handle points at a component of the document |
| UtilsCdx.DiscoverComplete | internal/utils/cdx.go:7-29 | every component of the document, at any depth, is returned |
| UtilsCdx.DiscoverOrder | internal/utils/cdx.go:7-29 | one handle precedes another in the list if and only if it comes first in depth-first pre-order |
| UtilsCdx.DiscoverDistinct | internal/utils/cdx.go:7-29 | no component is returned twice |
| UtilsCdx.AncestorFirst | internal/utils/cdx.go:8-13 | a component is listed before every component nested in it |
| UtilsCdx.SiblingSubtreesInOrder | internal/utils/cdx.go:12-14 | siblings come in array order, each with its whole subtree before the next sibling |
| UtilsCdx.MetaBeforeTop | internal/utils/cdx.go:19-27 | the metadata subtree comes before every top-level component |
| UtilsCdx.WriteAt | internal/utils/cdx.go:13 | a write through a returned handle is seen through that handle |
| UtilsCdx.WriteOther | internal/utils/cdx.go:13 | a write that keeps the node's children keeps every handle valid and changes no other component's own fields |
| UtilsCdx.ProgressStep | internal/utils/cdx.go:17-29 | rewriting the next discovered component keeps the walk invariant (same handles, every list nil exactly when it was, visited ones updated, the rest as in the input) |
| UtilsCdx.ProgressSkip | internal/utils/cdx.go:17-29 | passing over a component the update leaves as it is keeps the walk invariant |
| UtilsCdx.ProgressDone | internal/utils/cdx.go:17-29 | once every discovered handle is visited, each component carries its update and every handle is still valid |
| UtilsCdx.ProgressAll | internal/utils/cdx.go:17-29 | after a walk over all discovered handles, every component carries its update, and the metadata, the component list and every nested list are nil exactly when they were |
| UtilsCdx.WriteKeepsNil | internal/utils/cdx.go:13 | a write that keeps the node's children keeps every handle valid and every component's nested list nil or not as it was |
| UtilsCdx.VulnerabilitiesApart | internal/utils/cdx.go:17-29 | setting the BOM's vulnerabilities leaves every component and handle as it was |
| UtilsSpdx.FirstPurlLocatorIsFirst | internal/utils/spdx.go:18-23 | the locator found is that of the first reference of type "purl", and none exists exactly when no reference has that type |
| UtilsSpdx.FirstPurlLocatorIgnoresLater | internal/utils/spdx.go:18-23 | references after the first "purl" one play no part |
| UtilsSpdx.GetPurlFromSPDXPackage | internal/utils/spdx.go:15-35 | no "purl" reference, or an empty locator, is the error "no purl on package" plus the name; otherwise the parser's result, error included |
| UtilsSpdx.Without | internal/utils/spdx.go:43-47 | never longer than the input |
| UtilsSpdx.WithoutMembers | internal/utils/spdx.go:43-47 | an item is kept exactly when it is not rejected, as many times as it occurs |
| UtilsSpdx.GetSPDXLicensesFromEcosystemsLicense | internal/utils/spdx.go:37-49 | nil data, a nil licence string or "" give two nil lists; otherwise invalid is the validator's answer on the comma split and valid is the split without the invalid items |
| UtilsSpdx.LicenseItemsExact | internal/utils/spdx.go:41 | the pieces joined with "," give the licence string back; nothing is trimmed |
| EcoPackage.UserAgent | lib/ecosystems/package.go:34-36 | "parlay (" + version + ")": the version sits between the parentheses |
| EcoPackage.PurlToEcosystemsRegistry | lib/ecosystems/package.go:78-94 | a registry exactly for the 13 types of the table, "" for any other type |
| EcoPackage.RegistryTable | lib/ecosystems/package.go:78-94 | npm, maven and cocoapods map as listed; a type outside the table gets "" |
| EcoPackage.PurlToEcosystemsName | lib/ecosystems/package.go:96-120 | empty namespace gives the name; maven joins with ":"; apk drops the namespace; any other type joins with "/" |
| EcoPackage.NameKeepsNamespace | lib/ecosystems/package.go:103-118 | outside apk, two purls of one type that differ only in namespace are sent under different names |
| EcoPackage.ApkExample | lib/ecosystems/package.go:116-117 | "pkg:apk/alpine/lf@30-r3" is sent as "lf" |
| LibPackage.PurlToEcosystemsRegistry | lib/package.go:71-85 | a registry exactly for the 11 types of the table, "" for any other type |
| LibPackage.RegistryTable | lib/package.go:71-85 | apk maps to "alpine"; docker and swift get "" |
| LibPackage.PurlToEcosystemsName | lib/package.go:87-106 | npm with a namespace gives the query-escaped "ns/name"; other types with a namespace give exactly "ns:name"; no namespace gives the name |
| LibPackage.NameKeepsNamespace | lib/package.go:98-101 | outside npm, two purls of one name but different namespaces are sent under different names |
| LibPackage.GetPackageVulnerabilities | lib/package.go:21-49 | an empty token fails with the token message before any request; otherwise the organisation lookup's error is passed on after that one request; when the lookup succeeds, the result is exactly the issues fetch for that organisation and purl.ToString(), after the two requests |
| DepsRepo.ProjectCache.Get | lib/deps/repo.go:73-78 | the stored project and true when the key is present, otherwise false; the map is unchanged |
| DepsRepo.ProjectCache.Set | lib/deps/repo.go:80-84 | the map becomes the old map with key bound to val |
| DepsRepo.ProjectCache.constructor | lib/deps/repo.go:69-71 | the cache starts empty |
| DepsRepo.SetThenGet | lib/deps/repo.go:73-84 | Get after Set of a key returns what was stored |
| DepsRepo.NormalizeFallback | lib/deps/repo.go:100-106 | a stripped URL that does not parse, or has no host, is returned as it is |
| DepsRepo.NoSchemeNoHost | lib/deps/repo.go:101-102 | a string with no colon and no leading "/" has no host |
| DepsRepo.OwnerRepoOf | lib/deps/repo.go:112-116 | a path "/owner/repo" followed by nothing or by a further "/..." is cut to owner/repo |
| DepsRepo.NormalizeNoHost | lib/deps/repo.go:86-106 | such a string comes back with only its suffixes stripped |
| DepsRepo.HostAndOwnerRepoOf | lib/deps/repo.go:108-122 | from a URL with host and path "/owner/repo[/...]", the result is host/owner/repo |
| DepsRepo.HostAndPath | lib/deps/repo.go:108-122 | the result is the host followed by the first two path segments, if any |
| DepsRepo.HostAndOwnerRepoParsed | lib/deps/repo.go:100-122 | once the URL parses with a host, the result is host plus at most two path segments |
| DepsRepo.StripTail | lib/deps/repo.go:95-98 | a base ending in "/name" followed by "", "/", ".git" or ".git/" is stripped back to the base |
| DepsRepo.StripNothing | lib/deps/repo.go:95-98 | a URL whose last segment ends in neither "/" nor ".git" is not touched |
| DepsRepo.NotScpLike | lib/deps/repo.go:88 | a URL starting with a scheme and "://" is not rewritten as scp-like |
| DepsRepo.NormalizeHierarchical | lib/deps/repo.go:86-123 | scheme://host/owner/repo, with any of the strippable tails, normalises to host/owner/repo |
| DepsRepo.HierarchicalStrip | lib/deps/repo.go:95-98 | stripping leaves scheme "://" host path |
| DepsRepo.NormalizeExtraSegments | lib/deps/repo.go:112-116 | path segments after owner/repo are dropped |
| DepsRepo.PreparedSsh | lib/deps/repo.go:88-93 | git@host:owner/repo is rewritten to https://host/owner/repo |
| DepsRepo.NormalizeSsh | lib/deps/repo.go:86-123 | git@host:path normalises exactly as https://host/path does |
| DepsRepo.CheckResponse | lib/deps/repo.go:156-174 | the checks in order: transport error, 404 with the caller's message, any status other than 200, a body that does not decode |
| DepsRepo.GetRepoDataWithCache | lib/deps/repo.go:138-182 | a cached normalised URL is answered from the cache with no request; otherwise deps.dev is asked for the normalised URL, and a success is stored under it |
| DepsRepo.GetRepoDataWithLogger | lib/deps/repo.go:129-131 | always asks deps.dev for the normalised URL |
| DepsRepo.AskTwice | lib/deps/repo.go:144-181 | after a successful first lookup, a second for the same URL makes no request and returns the same project |
| DepsRepo.ParseRetryAfterHeader | lib/deps/repo.go:216-235 | a rejected header always means no wait, and "" is never accepted; the seconds and date forms are stated by the next lemmas |
| DepsRepo.RetryAfterSeconds | lib/deps/repo.go:222-224 | n seconds, for n in int64, is a wait of n·10^9 nanoseconds modulo 2^64 |
| DepsRepo.RetryAfterDate | lib/deps/repo.go:227-232 | a future date gives the time until it; a past date gives no wait |
| DepsRepo.RetryAfterOverflow | lib/deps/repo.go:222-224 | from 9223372037 seconds on, the wait wraps to a negative duration that is still reported as valid |
| DepsRepo.RetryBackoff | lib/deps/repo.go:194-211 | a transport error means no wait; no Retry-After header means the default back-off |
| DepsRepo.BackoffHonoursRetryAfter | lib/deps/repo.go:200-210 | a server's readable Retry-After is the wait; an unreadable one falls back to the default |
| DepsRepo.ParseVersionKey | lib/deps/repo.go:247-281 | no "pkg:" prefix, or no "/", is an error with its message; a parsed version holds no "?" (the qualifiers are cut) and a maven name holds no "/" (it becomes ":") |
| DepsRepo.ParseVersionKeyOf | lib/deps/repo.go:247-281 | pkg:type/name@version[?q] yields the upper-cased type, the name and the version |
| DepsRepo.ParseNameVersion | lib/deps/repo.go:264-281 | a parsed version carries no "?", and a maven name carries no "/" |
| DepsRepo.MavenName | lib/deps/repo.go:279-281 | in maven, group/artifact becomes group:artifact |
| DepsRepo.FirstQualifying | lib/deps/repo.go:310-338 | the id of the first related project with that relation, a non-empty id and a "/" in it |
| DepsRepo.ChooseRepoSpec | lib/deps/repo.go:309-340 | a qualifying SOURCE_REPO wins over every ISSUE_TRACKER wherever it stands; the result is "https://" + id; it fails exactly when no project qualifies for either |
| DepsRepo.GetRepoURLFromPackage | lib/deps/repo.go:239-341 | the answer is the specified one; a request is made exactly when the purl parses, and it is for that package version |
| GoUrl.ParseHierarchical | lib/deps/repo.go:101 | scheme "://" host path, with a plain host and a path the library accepts, parses to that host and path |
| EcoCache.InMemoryCache.constructor | lib/ecosystems/cache.go:38-43 | both maps start empty |
| EcoCache.InMemoryCache.GetPackageData | lib/ecosystems/cache.go:45-65 | a cached key is answered with no fetch; otherwise the fetch's error is returned and nothing is stored, or its response is stored and returned |
| EcoCache.InMemoryCache.GetPackageVersionData | lib/ecosystems/cache.go:67-87 | the same over the version map; the package map is untouched |
| EcoCache.InMemoryCache.GetCacheStats | lib/ecosystems/cache.go:89-93 | the sizes of the two maps; nothing changes |
| EcoCache.GetPackageTwice | lib/ecosystems/cache.go:45-65 | after a successful lookup, a second of the same purl makes no fetch and returns the identical response |
| EcoCache.StatsAfterOnePackageLookup | lib/ecosystems/cache.go:45-93 | from empty, one package lookup leaves the stats at (0 or 1, 0) |
| EcoCache.StatsAfterTwoPackageLookups | lib/ecosystems/cache.go:45-93 | two successful lookups with different keys leave two packages cached |
| SnykRateLimit.Extend | lib/snyk/ratelimit.go:84-88 | the deadline after a back-off is the later of the old deadline and the new end, and is one of the two |
| SnykRateLimit.BackoffMonotone | lib/snyk/ratelimit.go:80-90 | a back-off never brings the deadline forward; a positive one holds requests until at least now + d |
| SnykRateLimit.BackoffsMonotone | lib/snyk/ratelimit.go:80-90 | any sequence of back-offs leaves the deadline where it was or later |
| SnykRateLimit.BackoffsCommute | lib/snyk/ratelimit.go:80-90 | two back-offs in either order give the same deadline |
| SnykRateLimit.WaitTokenError | lib/snyk/ratelimit.go:55-57 | a token-bucket error is returned at once |
| SnykRateLimit.WaitNoBackoff | lib/snyk/ratelimit.go:60-65 | with no deadline in force and none arriving, the request goes at once |
| SnykRateLimit.WaitProceedsOnlyWhenPassed | lib/snyk/ratelimit.go:60-77 | a request goes only after a check whose clock is not before the deadline then in force |
| SnykRateLimit.WaitFailsOnlyWhenCancelled | lib/snyk/ratelimit.go:70-76 | the loop fails only with the context's error, in a round where the context was done |
| SnykRateLimit.WaitKeepsDeadline | lib/snyk/ratelimit.go:53-78 | wait never moves the deadline; an expired deadline is not cleared |
| SnykRateLimit.WaitWakesAtDeadline | lib/snyk/ratelimit.go:69-72 | a sleeping request goes once the timer reaches the deadline, unless the deadline was extended or the context ended |
| SnykRateLimit.WaitHonoursExtension | lib/snyk/ratelimit.go:71-72 | a deadline extended during the sleep holds the request for another round |
| SnykRateLimit.RateLimiter.constructor | lib/snyk/ratelimit.go:47-51 | no deadline in force |
| SnykRateLimit.RateLimiter.Backoff | lib/snyk/ratelimit.go:80-90 | d <= 0 changes nothing; otherwise the deadline becomes the later of itself and now + d, so it never moves earlier |
| SnykRateLimit.RateLimiter.Wait | lib/snyk/ratelimit.go:53-78 | the outcome and the deadline are those of the round-by-round specification |
| SnykRateLimit.RoundTrip | lib/snyk/ratelimit.go:97-104 | without a limiter the request is sent; with one, it is sent exactly when the wait lets it go, and a wait error is returned without sending |
| SnykRateLimit.ParseRateLimitResetHeader | lib/snyk/ratelimit.go:108-119 | a rejected header means no wait; a header is accepted only when it is a decimal int64 greater than zero |
| SnykRateLimit.ResetSeconds | lib/snyk/ratelimit.go:113-118 | a small positive n is exactly n seconds |
| SnykRateLimit.ResetRejects | lib/snyk/ratelimit.go:109-116 | zero, negative, empty or non-numeric values are rejected |
| SnykRateLimit.ResetOverflow | lib/snyk/ratelimit.go:118 | from 9223372037 seconds on, the wait is negative yet reported valid, so a back-off with it does nothing |
| Grouping.Find | lib/snyk/enrich_cyclonedx.go:118 | the position of the group with that key, the first one; -1 exactly when no group has the key |
| Grouping.FindAppend | lib/snyk/enrich_cyclonedx.go:119-122 | opening a group makes its key found and keeps every other key found or not found as before |
| Grouping.FindUpdate | lib/snyk/enrich_cyclonedx.go:123 | appending a member to a group moves no key |
| Grouping.MembersWithLast | lib/snyk/enrich_cyclonedx.go:102-124 | visiting one more entry adds its member to the list of its key, and to no other |
| Grouping.GroupsKey | lib/snyk/enrich_cyclonedx.go:101-124 | a key has a group exactly when some parsed entry is filed under it |
| Grouping.GroupsDistinctKeys | lib/snyk/enrich_cyclonedx.go:117-122 | no two groups share a key |
| Grouping.GroupsMembers | lib/snyk/enrich_cyclonedx.go:117-123 | a group's members are exactly the entries filed under its key, in visiting order |
| Grouping.GroupsExact | lib/snyk/enrich_cyclonedx.go:101-124 | one group per distinct key, each holding exactly its key's entries in order |
| Grouping.GroupsFirst | lib/snyk/enrich_cyclonedx.go:119-121 | a group's purl and reference are those of the first entry with its key |
| Grouping.MembersWithHas | lib/snyk/enrich_cyclonedx.go:123 | an entry filed under a key is among that key's members |
| Grouping.MembersWithEmpty | lib/snyk/enrich_cyclonedx.go:102-124 | a key has no members exactly when no entry is filed under it |
| Grouping.MembersWithFrom | lib/snyk/enrich_cyclonedx.go:102-124 | every member of a key comes from an entry filed under it |
| Grouping.GroupOf | lib/snyk/enrich_cyclonedx.go:106-123 | an entry is in a group if and only if it parsed and the group's key is its key |
| Grouping.GroupsDisjoint | lib/snyk/enrich_cyclonedx.go:102-124 | distinct visited elements are never in two groups |
| Grouping.DeliveredMember | lib/snyk/enrich_cyclonedx.go:153-158 | a member of a group holds an answer exactly when its group's request succeeded with data, and then holds that data |
| Grouping.DeliveredOnlyMembers | lib/snyk/enrich_cyclonedx.go:153-158 | an element of no group holds nothing |
| Grouping.FetchGroups | lib/snyk/enrich_cyclonedx.go:126-162 | one request per group, for the group's purl, in group order; every member of a group with a successful answer holds that data, and nothing else is stored |
| Grouping.AddToGroups | lib/snyk/enrich_cyclonedx.go:117-123 | one grouping step: the groups become the specified ones and the key map still points at each group's position |
| Grouping.GroupsNext | lib/snyk/enrich_cyclonedx.go:102-124 | grouping one more entry is one more step of the loop |
| Grouping.GroupPurlKey | lib/snyk/enrich_cyclonedx.go:117-121 | a group's purl prints as its key |
| Grouping.GroupPurlsDistinct | lib/snyk/enrich_cyclonedx.go:126-137 | no two requests are made for purls with the same key |
| Grouping.AnswerOfEntry | lib/snyk/enrich_cyclonedx.go:106-158 | an entry whose purl does not parse gets nothing; one that parses gets the answer of its key's group |
| Grouping.DeliveredReceives | lib/snyk/enrich_cyclonedx.go:126-162 | what the fetch loop stores is, entry by entry, the answer each should receive |
| Grouping.AnswerFromFirst | lib/snyk/enrich_cyclonedx.go:117-158 | an entry receives the answer to the purl of the first entry with the same key |
| SnykIssues.AppendNilIfEmpty | lib/snyk/enrich_cyclonedx.go:195-199 | appending to a list that starts nil, element by element, gives the whole list, still nil when empty |
| SnykIssues.LevelToCdxSeverity | lib/snyk/enrich_cyclonedx.go:282-296 | each severity arises exactly from its level string; any other level is unknown |
| SnykIssues.VersionToCdxMethod | lib/snyk/enrich_cyclonedx.go:298-310 | CVSSv3, CVSSv31 and CVSSv4 arise exactly from "3.0", "3.1" and "4.0"; any other version is "other" |
| SnykIssues.CweOfDecimal | lib/snyk/enrich_cyclonedx.go:192-194 | "CWE-" followed by the decimal form of n gives n |
| SnykIssues.CweOfRejects | lib/snyk/enrich_cyclonedx.go:192-194 | an id whose number part is not a decimal gives nothing |
| SnykIssues.CwesMembers | lib/snyk/enrich_cyclonedx.go:189-201 | n is among the CWEs if and only if some "CWE" problem's id reads as n |
| SnykIssues.ReferencesMembers | lib/snyk/enrich_cyclonedx.go:202-215 | a reference is produced if and only if some CVE, GHAS or RHSA problem has that id and source |
| SnykIssues.OtherSourcesIgnored | lib/snyk/enrich_cyclonedx.go:190-216 | a problem of any other source adds nothing |
| SnykIssues.MapProblems | lib/snyk/enrich_cyclonedx.go:187-217 | the CWE and reference lists are those of the problems, each nil when empty |
| SnykIssues.Advisories | lib/snyk/enrich_cyclonedx.go:218-231 | one advisory per slot reference, in order, with its title and URL |
| SnykIssues.MapAdvisories | lib/snyk/enrich_cyclonedx.go:218-231 | the advisory list is that of the slot references, nil when there are none |
| SnykCdx.AddSnykRef | lib/snyk/enrich_cyclonedx.go:47-77 | an empty URL changes nothing; otherwise an "Other" reference with the URL and comment is appended after the existing ones; no other field changes |
| SnykCdx.EnrichRefsAppends | lib/snyk/enrich_cyclonedx.go:113-115 | the Advisor reference, then the Vulnerability DB one, each only for a non-empty URL, come after the existing references (the enricher list is at lines 42-45) |
| SnykCdx.Entries | lib/snyk/enrich_cyclonedx.go:97-106 | one entry per discovered component, with its BOM ref and the parse of its purl |
| SnykCdx.RatingOf | lib/snyk/enrich_cyclonedx.go:234-258 | the source defaults to "Snyk"; only "Snyk" gets the Vulnerability DB URL; score, vector, severity and method come from the severity |
| SnykCdx.RatingsMembers | lib/snyk/enrich_cyclonedx.go:233-267 | a rating is produced if and only if some severity has a score, and it is that severity's rating |
| SnykCdx.VulnerabilityOf | lib/snyk/enrich_cyclonedx.go:166-269 | an issue with nil problems gives no vulnerability; otherwise one with the component's BOM ref and the issue's id |
| SnykCdx.IssueToVulnerability | lib/snyk/enrich_cyclonedx.go:166-269 | the vulnerability of one issue is as specified |
| SnykCdx.MapRatings | lib/snyk/enrich_cyclonedx.go:233-267 | the ratings of the severities, nil when there are none |
| SnykCdx.IssueVulns | lib/snyk/enrich_cyclonedx.go:166-270 | at most one vulnerability per issue, each carrying the component's BOM ref |
| SnykCdx.EnrichStep | lib/snyk/enrich_cyclonedx.go:102-115 | adding the references to the next parsed component keeps every handle valid and the progress invariant |
| SnykCdx.SkipStep | lib/snyk/enrich_cyclonedx.go:106-112 | a component whose purl does not parse is left as it is |
| SnykCdx.GroupComponents | lib/snyk/enrich_cyclonedx.go:100-124 | every component whose purl parses gains its Snyk references, and the groups are those of the discovered components |
| SnykCdx.ComponentVulnerabilities | lib/snyk/enrich_cyclonedx.go:166-270 | the vulnerabilities of one component's issues, in order |
| SnykCdx.EmitVulnerabilities | lib/snyk/enrich_cyclonedx.go:164-271 | the vulnerabilities of every answered component, in discovery order |
| SnykCdx.SameKeyAt | lib/snyk/enrich_cyclonedx.go:94 | two discovered components share a vulnerability-map key exactly when they are one component, or are equal once enriched and hold no pointer field |
| SnykCdx.FiledFrom | lib/snyk/enrich_cyclonedx.go:150-158 | every filed key was filed by an entry whose group received an answer, which the lemma names |
| SnykCdx.EmittedSnoc | lib/snyk/enrich_cyclonedx.go:164-271 | one more entry adds its issues' vulnerabilities at the end when its key is new, and nothing otherwise |
| SnykCdx.EmittedGrows | lib/snyk/enrich_cyclonedx.go:164-271 | the vulnerabilities of a prefix of the entries come first |
| SnykCdx.SameKeySameAnswer | lib/snyk/enrich_cyclonedx.go:94-158 | two entries under one key name the same BOM ref and receive the same answer |
| SnykCdx.EntriesKeyDecide | lib/snyk/enrich_cyclonedx.go:94-158 | the keys of a document's entries decide their BOM refs and answers |
| SnykCdx.EmittedFrom | lib/snyk/enrich_cyclonedx.go:164-271 | every emitted vulnerability comes from an issue of an entry that received an answer, which the lemma names |
| SnykCdx.LastAddsOrShares | lib/snyk/enrich_cyclonedx.go:150-271 | the last entry's issues are emitted, or its key was filed by an earlier entry with the same BOM ref and answer |
| SnykCdx.EmittedHas | lib/snyk/enrich_cyclonedx.go:150-271 | every issue of every entry that received an answer gives an emitted vulnerability |
| SnykCdx.EmittedMembers | lib/snyk/enrich_cyclonedx.go:150-271 | a vulnerability is emitted exactly when an entry that received an answer has an issue that gives it |
| SnykCdx.KeyAtFinal | lib/snyk/enrich_cyclonedx.go:156 | the key taken from the enriched component is the one its discovery position and update determine |
| SnykCdx.SnykVulnerabilitiesMembers | lib/snyk/enrich_cyclonedx.go:94-271 | a document's vulnerabilities are exactly those of the issues its discovered, parsable components receive: components sharing a key lose none |
| SnykCdx.EnrichCycloneDX | lib/snyk/enrich_cyclonedx.go:79-280 | a failed organisation lookup (and, in place of the process exit, a failed authentication) gives nil with no request; otherwise the document has exactly the handles of the input and the same nil lists and metadata, every component is enriched in place, one request is made per distinct purl, and the vulnerabilities are set only when there are some |
| SnykSpdx.AddSnykRef | lib/snyk/enrich_spdx.go:48-80 | an empty URL changes nothing; otherwise an OTHER reference of the given type is appended; no other field changes |
| SnykSpdx.EnrichRefsAppends | lib/snyk/enrich_spdx.go:116-118 | the "advisory" reference, then the "url" one, each only for a non-empty URL, come after the existing references; the package's purl stays the same (the enricher list is at lines 43-46) |
| SnykSpdx.NonPurlRefsKeepPurl | lib/snyk/enrich_spdx.go:111-118 | appending references that are not of type "purl" does not change which purl is found first |
| SnykSpdx.AdvisoryRef | lib/snyk/enrich_spdx.go:173-184 | a SECURITY advisory whose locator is the issue's Vulnerability DB page and whose comment is the title, or "" |
| SnykSpdx.IssueRefsMembers | lib/snyk/enrich_spdx.go:168-187 | a reference is produced if and only if some issue has an id, and it is that issue's advisory |
| SnykSpdx.IssueRefsCount | lib/snyk/enrich_spdx.go:168-171 | at most one reference per issue; exactly one each when every issue has an id; none when none has one |
| SnykSpdx.NumpyAdvisory | lib/snyk/enrich_spdx.go:173-184 | the numpy issue of the package's own tests gives the reference "https://security.snyk.io/vuln/SNYK-PYTHON-NUMPY-73513" with its title |
| SnykSpdx.AddIssueRefs | lib/snyk/enrich_spdx.go:168-187 | the package's references grow by exactly the issues' references; nothing else changes |
| SnykSpdx.Entries | lib/snyk/enrich_spdx.go:108-111 | one entry per package, with its position, SPDX id and the parse of its purl |
| SnykSpdx.UnparsableGetsNothing | lib/snyk/enrich_spdx.go:111-115 | a package whose purl does not parse receives no issue |
| SnykSpdx.IssuesFromFirst | lib/snyk/enrich_spdx.go:120-158 | a package receives the issues fetched for the first package with the same key |
| SnykSpdx.GroupedStep | lib/snyk/enrich_spdx.go:108-127 | one grouping step enriches exactly package i |
| SnykSpdx.GroupPackages | lib/snyk/enrich_spdx.go:106-127 | every package whose purl parses gains its Snyk references, and the groups are those of the packages |
| SnykSpdx.AddVulnerabilityRefs | lib/snyk/enrich_spdx.go:167-188 | every package that holds issues gains their references; the others are unchanged |
| SnykSpdx.EnrichSPDX | lib/snyk/enrich_spdx.go:82-191 | in place of the process exit on an authentication or organisation failure, a nil document with no request; otherwise package i becomes SnykPackage(i), with one request per group |
| SnykSpdx.SnykPackage | lib/snyk/enrich_spdx.go:108-187 | an unparsable package is unchanged; the others keep every field except their references, which gain the Snyk references and then their issues' references |
| SnykSpdx.FinalPackage | lib/snyk/enrich_spdx.go:155-187 | a package's final state, given what the fetch loop stored, is SnykPackage |
| DepsCdx.EnrichProperty | lib/deps/enrich_cyclonedx.go:77-88 | the property goes after the existing ones, and a nil list becomes a one-element list; no other field changes |
| DepsCdx.NamesDistinct | lib/deps/enrich_cyclonedx.go:28-75 | the seven enrichers write seven different property names |
| DepsCdx.CountsRoundTrip | lib/deps/enrich_cyclonedx.go:28-54 | a present count is written, and its value reads back as the count |
| DepsCdx.ApplyAllAppends | lib/deps/enrich_cyclonedx.go:145-147 | the enrichers only append properties: the existing ones stay first, the new ones follow in enricher order, and a nil list stays nil when nothing is added |
| DepsCdx.EnrichFuncsOrder | lib/deps/enrich_cyclonedx.go:168-176 | with every field present, the properties come as open issues, stars, forks, licence, description, homepage, scorecard |
| DepsCdx.AllPresent | lib/deps/enrich_cyclonedx.go:145-147 | when every enricher finds its field, each adds exactly one property, in list order |
| DepsCdx.RunEnrichers | lib/deps/enrich_cyclonedx.go:145-147 | the loop gives the enrichers applied in order |
| DepsCdx.FirstVcs | lib/deps/enrich_cyclonedx.go:110-118 | the URL of the first "vcs" reference; none exactly when no reference has that type |
| DepsCdx.FindVcs | lib/deps/enrich_cyclonedx.go:110-118 | the loop stops at the first "vcs" reference and reports whether there was one |
| DepsCdx.RepoURL | lib/deps/enrich_cyclonedx.go:106-133 | a "vcs" reference wins; only without one, and only with a purl, is deps.dev asked, and its failure leaves no URL |
| DepsCdx.FindRepoURL | lib/deps/enrich_cyclonedx.go:106-133 | the search finds exactly the URL RepoURL specifies |
| DepsCdx.EnrichedOwn | lib/deps/enrich_cyclonedx.go:135-149 | without a project the component is untouched; with one, only the properties change, the old ones staying first |
| DepsCdx.EnrichedList | lib/deps/enrich_cyclonedx.go:151-158 | the nested list keeps its length |
| DepsCdx.EnrichedShape | lib/deps/enrich_cyclonedx.go:105-161 | the component's own fields are EnrichedOwn's; the nested list keeps its length and order, and a nil list stays nil |
| DepsCdx.ChildrenInOrder | lib/deps/enrich_cyclonedx.go:151-158 | nested component i of the result is nested component i of the input, enriched |
| DepsCdx.EnrichOwn | lib/deps/enrich_cyclonedx.go:106-149 | the component's own fields are enriched as specified, and the cache holds only deps.dev's own answers |
| DepsCdx.EnrichComponentRecursive | lib/deps/enrich_cyclonedx.go:105-161 | the result is the recursively enriched component, and the cache keeps holding only deps.dev's own answers |
| DepsCdx.EnrichChildren | lib/deps/enrich_cyclonedx.go:151-158 | slot i of the new list is nested component i enriched |
| DepsCdx.EnrichedAll | lib/deps/enrich_cyclonedx.go:92-102 | element i is component i enriched |
| DepsCdx.EnrichComponents | lib/deps/enrich_cyclonedx.go:90-103 | slot i of the new list is component i enriched; the cache stays faithful |
| DepsCdx.EnrichCDX | lib/deps/enrich_cyclonedx.go:163-180 | nil components leave the BOM unchanged; otherwise only the top-level components change, each enriched with its subtree |
| DepsSpdx.FirstRepoRef | lib/deps/enrich_spdx.go:42-47 | the locator of the first reference of type "vcs", or of type "url" naming github.com, gitlab.com or bitbucket.org; none exactly when there is no such reference |
| DepsSpdx.FindRepoURL | lib/deps/enrich_spdx.go:41-47 | the loop stops at that reference; "" when there is none |
| DepsSpdx.EnrichExternalRef | lib/deps/enrich_spdx.go:101-110 | one OTHER reference, typed by the name and commented "deps.dev " + name, goes after the existing ones |
| DepsSpdx.ConcatRefs | lib/deps/enrich_spdx.go:68-90 | presence, values and deps.dev form of references distribute over concatenation |
| DepsSpdx.RefForFacts | lib/deps/enrich_spdx.go:68-90 | a check writes a reference of its own name exactly when the project gives it a value, carrying that value |
| DepsSpdx.ProjectRefsPresence | lib/deps/enrich_spdx.go:68-90 | a name's reference is written exactly when the project gives it a value, and at most seven are written, all deps.dev references |
| DepsSpdx.ValuePresence | lib/deps/enrich_spdx.go:68-90 | counts are written and read back; licence, description and homepage exactly when non-nil and non-empty; the scorecard exactly when it has an overall score |
| DepsSpdx.AllRefsInOrder | lib/deps/enrich_spdx.go:68-90 | with every value present, the references come as open issues, stars, forks, licence, description, homepage, scorecard |
| DepsSpdx.AddCountRefs | lib/deps/enrich_spdx.go:68-76 | the three count checks append their references in order |
| DepsSpdx.AddTextRefs | lib/deps/enrich_spdx.go:78-86 | the three text checks append their references in order, skipping empty strings |
| DepsSpdx.AddProjectRefs | lib/deps/enrich_spdx.go:67-90 | the seven checks append exactly the project's references |
| DepsSpdx.EnrichedAppends | lib/deps/enrich_spdx.go:40-90 | only the references change, and only by appending deps.dev references after the existing ones |
| DepsSpdx.NoRepoUnchanged | lib/deps/enrich_spdx.go:49-55 | a package with no repository reference is left as it is |
| DepsSpdx.FailedFetchUnchanged | lib/deps/enrich_spdx.go:57-65 | a package whose repository lookup fails is left as it is |
| DepsSpdx.EnrichPackage | lib/deps/enrich_spdx.go:37-95 | one package is enriched as specified, and the cache stays faithful |
| DepsSpdx.EnrichSPDX | lib/deps/enrich_spdx.go:30-99 | every package, in its own slot, is enriched; the number of packages does not change |
| DepsEnrichOld.EnrichProperty | lib/deps/enrich.go:27-38 | the property goes after the existing ones, and a nil list becomes a one-element list; no other field changes |
| DepsEnrichOld.ApplyAllOrder | lib/deps/enrich.go:82-86 | open issues, stars and scorecard follow the existing properties in that order, and the counts read back as the counts; no other field changes (the three enrichers are at lines 15-25) |
| DepsEnrichOld.RepoNameDropsScheme | lib/deps/enrich.go:49 | "https://" + rest is sent as rest, when "https://" does not occur again |
| DepsEnrichOld.RepoNameKeepsOthers | lib/deps/enrich.go:49 | a URL without "https://" is sent as it is |
| DepsEnrichOld.FirstVcsOnly | lib/deps/enrich.go:46-58 | only the first "vcs" reference is looked up; when that fails the component is unchanged, whatever later references hold |
| DepsEnrichOld.EnrichComponent | lib/deps/enrich.go:45-62 | one component is enriched as specified |
| DepsEnrichOld.EnrichComponents | lib/deps/enrich.go:40-66 | slot i of the new list is component i enriched |
| DepsEnrichOld.EnrichCycloneDXSBOM | lib/deps/enrich.go:77-90 | nil components leave the BOM unchanged; otherwise only the components change, keeping their number |
| DepsEnrichOld.EnrichSBOM | lib/deps/enrich.go:68-75 | a CycloneDX document gets its BOM enriched; any other is left as it is |
| EcoEnrich.EnrichDescription | lib/ecosystems/enrich.go:48-53 | the description is the data's when present, otherwise kept; no other field changes |
| EcoEnrich.EnrichLicense | lib/ecosystems/enrich.go:55-64 | the first normalised licence becomes the only licence choice, as an expression; no licence leaves the component as it is |
| EcoEnrich.EnrichExternalReference | lib/ecosystems/enrich.go:66-80 | a nil URL changes nothing; otherwise the reference goes after the existing ones, and a nil list becomes a one-element list |
| EcoEnrich.EnrichProperty | lib/ecosystems/enrich.go:82-93 | the property goes after the existing ones, and a nil list becomes a one-element list; no other field changes |
| EcoEnrich.EnrichAuthor | lib/ecosystems/enrich.go:148-159 | the author is the owner record's name when that is a string, otherwise kept |
| EcoEnrich.EnrichSupplier | lib/ecosystems/enrich.go:161-179 | only the supplier changes, and only when the owner record has a string name; then it is the supplier built from that record |
| EcoEnrich.TopicsInOrder | lib/ecosystems/enrich.go:181-193 | one "ecosystems:topic" property per topic, in order, after the existing properties; no topics leave the component as it is |
| EcoEnrich.EnrichTopics | lib/ecosystems/enrich.go:181-193 | the topic loop gives the specified component |
| EcoEnrich.ApplyEffect | lib/ecosystems/enrich.go:48-193 | each enricher appends its references and properties and sets at most its own field |
| EcoEnrich.ApplyAllEffect | lib/ecosystems/enrich.go:206-208 | a list of enrichers appends their references and properties in list order and sets a field only if its enricher is in the list |
| EcoEnrich.ApplyAllConcat | lib/ecosystems/enrich.go:206-208 | running a list in two parts is running it whole |
| EcoEnrich.RefsAllConcat | lib/ecosystems/enrich.go:206-208 | the references of two lists are those of the first followed by those of the second |
| EcoEnrich.RefsAllSnoc | lib/ecosystems/enrich.go:206-208 | one more enricher adds its references at the end |
| EcoEnrich.PropsAllConcat | lib/ecosystems/enrich.go:206-208 | the properties of two lists are those of the first followed by those of the second |
| EcoEnrich.PropsAllSnoc | lib/ecosystems/enrich.go:206-208 | one more enricher adds its properties at the end |
| EcoEnrich.EnrichFuncsLists | lib/ecosystems/enrich.go:95-146 | the references come as home page, registry, repository, documentation, and the properties as first release, latest release, archived, owner location, topics (in the order of the enricher list at lines 32-46) |
| EcoEnrich.EnrichFuncsFields | lib/ecosystems/enrich.go:148-179 | description, licence, author and supplier each come from their own data field, and are kept when the data has nothing for them (the enricher list and the description and licence enrichers are at lines 32-64) |
| EcoEnrich.RunEnrichers | lib/ecosystems/enrich.go:206-208 | the loop gives the enrichers applied in order |
| EcoEnrich.EnrichComponent | lib/ecosystems/enrich.go:200-212 | a failed fetch or a missing body leaves the component as it is; otherwise the enrichers run in list order |
| EcoEnrich.EnrichComponentsWithEcosystems | lib/ecosystems/enrich.go:195-217 | slot i of the new list is component i enriched |
| EcoEnrich.EnrichCDXDoc | lib/ecosystems/enrich.go:219-225 | nil components leave the BOM unchanged; otherwise only the components change, keeping their number |
| EcoEnrich.EnrichSBOM | lib/ecosystems/enrich.go:227-237 | CycloneDX goes to the CycloneDX enricher and SPDX to the one of lib/ecosystems/spdx2_3.go; any other type is an error naming the type, with the document left as it is |
| EcoCdx.EnrichExternalReference | lib/ecosystems/enrich_cyclonedx.go:75-91 | a nil URL, or one url.Parse rejects, changes nothing; otherwise the reference goes after the existing ones |
| EcoCdx.StringTopicsMembers | lib/ecosystems/enrich_cyclonedx.go:192-197 | a name is kept exactly when it occurs as a string topic |
| EcoCdx.TopicProps | lib/ecosystems/enrich_cyclonedx.go:193-196 | one "ecosystems:topic" property per name, in order |
| EcoCdx.StringTopicsAll | lib/ecosystems/enrich_cyclonedx.go:192-197 | when every topic is a string, the topic properties are the by-value enricher's |
| EcoCdx.StringTopicsLength | lib/ecosystems/enrich_cyclonedx.go:192-197 | when every topic is a string, none is skipped |
| EcoCdx.EnrichCDXTopics | lib/ecosystems/enrich_cyclonedx.go:188-200 | one property per string topic is appended; other topics are skipped |
| EcoCdx.SupplierURLsTrimmed | lib/ecosystems/enrich_cyclonedx.go:176-179 | one URL per ", "-separated piece, none with white space at either end |
| EcoCdx.SupplierURLsSingle | lib/ecosystems/enrich_cyclonedx.go:176-179 | a website with no ", " and no surrounding white space is the only URL |
| EcoCdx.EnrichedSupplier | lib/ecosystems/enrich_cyclonedx.go:167-186 | only the supplier changes, and only when the owner record has a string name |
| EcoCdx.TrimAll | lib/ecosystems/enrich_cyclonedx.go:177-179 | every piece is trimmed in its own slot |
| EcoCdx.EnrichCDXSupplier | lib/ecosystems/enrich_cyclonedx.go:167-186 | the supplier written is the specified one |
| EcoCdx.IdChoices | lib/ecosystems/enrich_cyclonedx.go:64-67 | one licence choice per ID |
| EcoCdx.NameChoices | lib/ecosystems/enrich_cyclonedx.go:68-71 | one licence choice per name |
| EcoCdx.IdChoicesHas | lib/ecosystems/enrich_cyclonedx.go:64-67 | an ID is among the choices exactly when it is among the valid licences |
| EcoCdx.NameChoicesHas | lib/ecosystems/enrich_cyclonedx.go:68-71 | a name is among the choices exactly when it is among the invalid licences |
| EcoCdx.EnrichedLicenseItems | lib/ecosystems/enrich_cyclonedx.go:61-73 | an item is written as a licence ID exactly when the validator accepts it, every rejected item is written as a licence name, IDs first, and nothing else is written |
| EcoCdx.AppendIds | lib/ecosystems/enrich_cyclonedx.go:64-67 | the loop appends one ID choice per valid licence |
| EcoCdx.AppendNames | lib/ecosystems/enrich_cyclonedx.go:68-71 | the loop appends one name choice per invalid licence |
| EcoCdx.EnrichCDXLicense | lib/ecosystems/enrich_cyclonedx.go:61-73 | the licences written are the specified ones |
| EcoCdx.RunPackageEnrichers | lib/ecosystems/enrich_cyclonedx.go:237-239 | the loop gives the package enrichers applied in order |
| EcoCdx.ApplyComponents | lib/ecosystems/enrich_cyclonedx.go:55-200 | no package enricher reads or writes the nested components |
| EcoCdx.ApplyAgrees | lib/ecosystems/enrich_cyclonedx.go:55-200 | on plain data (URLs that parse, string topics, a single trimmed website) each package enricher does what its by-value namesake in lib/ecosystems/enrich.go does |
| EcoCdx.UrlAgrees | lib/ecosystems/enrich_cyclonedx.go:75-91 | a URL that parses is added as the by-value enricher adds it |
| EcoCdx.SupplierAgrees | lib/ecosystems/enrich_cyclonedx.go:175-180 | a single trimmed website gives the by-value supplier |
| EcoCdx.PackageEnrichersByValue | lib/ecosystems/enrich_cyclonedx.go:36-49 | the package enrichers are the by-value list without its licence enricher, in the same order |
| EcoCdx.PackageEnrichersEffect | lib/ecosystems/enrich_cyclonedx.go:237-239 | on plain data they append the same references and properties, in the same order, as the by-value enrichers, and leave the licences alone (the enricher list is at lines 36-49) |
| EcoCdx.EnrichedLicenses | lib/ecosystems/enrich_cyclonedx.go:214-258 | an unparsable purl, a failed fetch or a missing body leave the component unchanged; the licences are replaced exactly when both fetches return a body |
| EcoCdx.PackageLicensesKept | lib/ecosystems/enrich_cyclonedx.go:36-49 | no package enricher touches the licences |
| EcoCdx.EnrichComponent | lib/ecosystems/enrich_cyclonedx.go:210-260 | one component is enriched as specified |
| EcoCdx.UpdateOwn | lib/ecosystems/enrich_cyclonedx.go:210-260 | the update reads and writes the component's own fields only |
| EcoCdx.EnrichStep | lib/ecosystems/enrich_cyclonedx.go:208-261 | writing the next discovered component keeps the walk invariant |
| EcoCdx.EnrichCDX | lib/ecosystems/enrich_cyclonedx.go:202-264 | every component of the document, metadata and nested ones included, is enriched; the tree keeps its shape (the same handles, and the metadata, the component list and every nested list nil exactly when they were) and the vulnerabilities are untouched |
| EcoSpdx.ExtractedPurl | lib/ecosystems/enrich_spdx.go:59-71 | the first "purl" reference decides: its locator's parse, error included; no such reference is the error "no purl found on SPDX package" |
| EcoSpdx.FirstPurlRefDecides | lib/ecosystems/enrich_spdx.go:60-68 | a later "purl" reference is never tried, even when the first one's locator does not parse |
| EcoSpdx.ExtractPurl | lib/ecosystems/enrich_spdx.go:59-71 | the loop returns at the first "purl" reference, as specified |
| EcoSpdx.LicenseConcluded | lib/ecosystems/enrich_spdx.go:73-79 | no licence keeps the concluded licence; one is taken as it is; several are joined with " OR " in parentheses |
| EcoSpdx.LicenseConcludedMentionsAll | lib/ecosystems/enrich_spdx.go:76-77 | with several licences the result is parenthesised and every licence occurs in it |
| EcoSpdx.EnrichSPDXLicense | lib/ecosystems/enrich_spdx.go:73-79 | only the concluded licence changes, as LicenseConcluded says |
| EcoSpdx.EnrichSPDXHomepage | lib/ecosystems/enrich_spdx.go:81-86 | only a present home page is written; nothing else changes |
| EcoSpdx.EnrichSPDXDescription | lib/ecosystems/enrich_spdx.go:88-93 | only a present description is written; nothing else changes |
| EcoSpdx.EnrichedFields | lib/ecosystems/enrich_spdx.go:37-56 | a package without data (no purl, failed fetch, no body) is unchanged; otherwise only description, licence and home page change, each from its own field |
| EcoSpdx.EnrichPackage | lib/ecosystems/enrich_spdx.go:38-55 | one package is enriched as specified |
| EcoSpdx.EnrichSPDX | lib/ecosystems/enrich_spdx.go:32-57 | every package is enriched in its own slot; number and order do not change |
| EcoSpdx23.EnrichHomepage | lib/ecosystems/spdx2_3.go:61-63 | the home page is always written, from the data; nothing else changes |
| EcoSpdx23.EnrichDescription | lib/ecosystems/spdx2_3.go:65-67 | the description is always written, from the data; nothing else changes |
| EcoSpdx23.EnrichedFields | lib/ecosystems/spdx2_3.go:17-36 | a package without data is unchanged; otherwise description and home page are the data's and the licence follows the licence rule; nothing else changes |
| EcoSpdx23.EnrichPackage | lib/ecosystems/spdx2_3.go:18-35 | one package is enriched as specified |
| EcoSpdx23.EnrichedDoc | lib/ecosystems/spdx2_3.go:14-37 | the number of packages does not change |
| EcoSpdx23.EnrichSPDXDoc | lib/ecosystems/spdx2_3.go:14-37 | every package is enriched in its own slot; number and order do not change |
| LibEnrich.EnrichedAgrees | lib/enrich.go:164-184 | when every successful fetch has a body, this driver enriches a component exactly as lib/ecosystems/enrich.go does |
| LibEnrich.EnrichComponent | lib/enrich.go:169-179 | one component is enriched as specified |
| LibEnrich.EnrichComponentsWithEcosystems | lib/enrich.go:164-184 | slot i of the new list is component i enriched |
| LibEnrich.EnrichSBOMWithEcosystems | lib/enrich.go:186-209 | nil components leave the BOM unchanged; otherwise the result is what enrichCDXDoc of lib/ecosystems/enrich.go makes of it |
| LibEnrich.Ratings | lib/enrich.go:311-331 | one rating per severity, all with the Snyk source and CVSSv31, whatever the severity's own source and version |
| LibEnrich.MapRatings | lib/enrich.go:311-331 | the ratings of the severities, nil when there are none |
| LibEnrich.VulnerabilityFields | lib/enrich.go:244-333 | the vulnerability names the component and takes id, title and description from the issue; nil problems give no CWEs and no references; one rating per severity and one advisory per slot reference |
| LibEnrich.IssueHeader | lib/enrich.go:244-263 | id, title, description and both timestamps are copied when set; the lists stay nil |
| LibEnrich.IssueToVulnerability | lib/enrich.go:243-333 | the vulnerability of one issue is as specified |
| LibEnrich.SameKey | lib/enrich.go:218 | two listed components share a map key exactly when they are equal and either hold no pointer field or are the same element |
| LibEnrich.KeysFrom | lib/enrich.go:219-239 | every key was filed by a listed component whose fetch gave issues, which the lemma names |
| LibEnrich.KeysHas | lib/enrich.go:219-239 | every listed component whose fetch gave issues has its key filed |
| LibEnrich.KeysMembers | lib/enrich.go:219-239 | a key is in the map exactly when some listed component whose fetch gave issues is filed under it |
| LibEnrich.KeysDistinct | lib/enrich.go:231 | the keys list names no key twice |
| LibEnrich.PointerHoldersApart | lib/enrich.go:218-231 | two listed components with issues are filed under different keys when the later one holds a pointer, however equal their fields |
| LibEnrich.FetchIssues | lib/enrich.go:216-239 | the map's keys are exactly the keys of the components with issues, compared as Go compares them, each holding its component's issues |
| LibEnrich.IssueVulns | lib/enrich.go:243-334 | one vulnerability per issue, in order; unlike lib/snyk, an issue with nil problems still gives one |
| LibEnrich.IssueVulnsSnoc | lib/enrich.go:243-334 | one more issue adds its vulnerability at the end |
| LibEnrich.KeyVulnsSnoc | lib/enrich.go:241-336 | one more key adds its issues' vulnerabilities at the end |
| LibEnrich.KeyVulnsHas | lib/enrich.go:241-336 | every issue of every key gives its vulnerability |
| LibEnrich.KeyVulnsFrom | lib/enrich.go:241-336 | every vulnerability comes from an issue of one of the keys, which the lemma names |
| LibEnrich.SnykVulnsMembers | lib/enrich.go:216-337 | a vulnerability is written exactly when some listed component has an issue that gives it |
| LibEnrich.SnykVulnsFrom | lib/enrich.go:216-337 | every written vulnerability comes from some component's issue |
| LibEnrich.SnykVulnsHas | lib/enrich.go:216-337 | every component's issue gives a written vulnerability |
| LibEnrich.KeysTwice | lib/enrich.go:218-231 | a component listed twice is one key when it holds no pointer and two keys when it holds one |
| LibEnrich.KeyVulnsRepeated | lib/enrich.go:241-336 | one key gives its component's vulnerabilities once; two keys of the same component give them twice |
| LibEnrich.ListedTwice | lib/enrich.go:216-337 | a component listed twice has its vulnerabilities written once when it holds no pointer and twice when it holds one |
| LibEnrich.EmitVulnerabilities | lib/enrich.go:240-336 | the loop gives the vulnerabilities of the keys, in key order |
| LibEnrich.EnrichSBOMWithSnyk | lib/enrich.go:211-339 | nil components leave the BOM unchanged; otherwise only the vulnerabilities change, to those of the issues filed under each distinct map key, in first-filed order |
| ScorecardEnrich.EnrichExternalReference | lib/scorecard/enrich.go:14-26 | the reference goes after the existing ones, and a nil list becomes a one-element list; no other field changes |
| ScorecardEnrich.ScorecardURLRewritesScheme | lib/scorecard/enrich.go:41 | an https repository URL keeps its host and path behind "https://api.securityscorecards.dev/projects/" |
| ScorecardEnrich.ScorecardURLKeepsOthers | lib/scorecard/enrich.go:41 | a repository URL without "https://" is requested as it is |
| ScorecardEnrich.RepositoryURL | lib/scorecard/enrich.go:39-40 | there is a repository URL exactly when the fetch succeeded with a body that names one |
| ScorecardEnrich.ScorecardRef | lib/scorecard/enrich.go:40-46 | the Scorecard URL is referenced exactly when there is a repository URL and its GET answers 200 |
| ScorecardEnrich.EnrichedAddsAtMostOne | lib/scorecard/enrich.go:37-50 | at most one "OpenSSF Scorecard" reference is added, after the existing ones, exactly when ScorecardRef gives one; nothing else changes |
| ScorecardEnrich.EnrichComponent | lib/scorecard/enrich.go:37-52 | one component is enriched as specified |
| ScorecardEnrich.EnrichSBOM | lib/scorecard/enrich.go:28-58 | nil components leave the BOM unchanged; otherwise slot i is component i enriched, and nothing else of the BOM changes |
| ScorecardCdx.CdxEnrichExternalReference | lib/scorecard/enrich_cyclonedx.go:31-43 | the reference goes after the existing ones, and a nil list becomes a one-element list; no other field changes |
| ScorecardCdx.Requested | lib/scorecard/enrich_cyclonedx.go:55-69 | a URL is requested exactly when the purl parses and the package data names a repository |
| ScorecardCdx.UpdateAddsAtMostOne | lib/scorecard/enrich_cyclonedx.go:52-77 | a component changes exactly when a URL is requested and answers 200, and then only by one reference after the existing ones |
| ScorecardCdx.UpdateOwn | lib/scorecard/enrich_cyclonedx.go:52-77 | the update reads and writes the component's own fields only |
| ScorecardCdx.EnrichComponent | lib/scorecard/enrich_cyclonedx.go:52-77 | one component is enriched as specified |
| ScorecardCdx.EnrichStep | lib/scorecard/enrich_cyclonedx.go:50-78 | writing the next discovered component keeps the walk invariant |
| ScorecardCdx.EnrichCDX | lib/scorecard/enrich_cyclonedx.go:45-81 | every component of the document, metadata and nested ones included, is updated; the tree keeps its shape (the same handles, and the metadata, the component list and every nested list nil exactly when they were) and the vulnerabilities are untouched |
| ScorecardSpdx.EnrichedAppendsOne | lib/scorecard/enrich_spdx.go:37-62 | exactly one "openssfscorecard" reference is appended when the purl is found and the Scorecard URL answers 200, none otherwise; nothing else changes |
| ScorecardSpdx.NoPurlUntouched | lib/scorecard/enrich_spdx.go:40-43 | a package with no purl reference is left as it is, whatever the services answer |
| ScorecardSpdx.EnrichPackage | lib/scorecard/enrich_spdx.go:37-62 | one package is enriched as specified |
| ScorecardSpdx.EnrichSPDX | lib/scorecard/enrich_spdx.go:31-66 | every package is enriched in its own slot; number and order do not change |
| Sbom.IdentifySBOMFormat | lib/sbom/decode.go:56-66 | JSON when "bomFormat" and "CycloneDX" both occur, otherwise XML when "xmlns" and "cyclonedx" both occur, otherwise the error; it succeeds exactly when one pair occurs |
| Sbom.NoSPDXDetection | lib/sbom/decode.go:56-66 | no input is identified as SPDX |
| Sbom.DecodeSBOMDocument | lib/sbom/decode.go:25-54 | an unidentified input is the identification error; otherwise the sniffed format's decoder decides, and its error is wrapped with "could not decode input: " |
| Sbom.DecodeErrors | lib/sbom/decode.go:28-51 | every failure is the identification error or a wrapped decoder error; the "no decoder" branch is never taken |
| Flags.FormatFlagVal.constructor | internal/flags/format.go:54 | the flag starts as "" |
| Flags.FormatFlagVal.String | internal/flags/format.go:29-31 | the stored value |
| Flags.FormatFlagVal.Type | internal/flags/format.go:47-49 | "<sbom-format>" |
| Flags.FormatFlagVal.Set | internal/flags/format.go:33-45 | one of the three accepted values is stored; any other value is the "must be one of" error and leaves the flag as it was |
| Flags.FlagToSBOMFormat | internal/flags/format.go:69-72 | the three flag values map to the CycloneDX JSON, CycloneDX XML and SPDX formats; any other value to "" (the lookup table is at lines 23-27) |
| Flags.SetValuesMap | internal/flags/format.go:23-45 | an accepted value maps to a real format, and different accepted values to different formats |
| Purl.ParseOrZero | lib/ecosystems/enrich.go:201 | a purl that parses is used; a parse error is dropped and the zero purl is used |
| EcoTypes.OwnerString | lib/ecosystems/enrich.go:148-159 | a field is read exactly when owner_record is an object holding that field as a string, and what is read is that string |
| Base.WrapInt64 | lib/deps/repo.go:223 | the int64 result of Go arithmetic: in range, congruent modulo 2^64, and unchanged when already in range |
| Base.SecondsOverflow | lib/deps/repo.go:223 | from 9223372037 seconds on, the nanosecond count wraps to a negative duration |
| Base.Append | lib/deps/enrich_cyclonedx.go:82-86 | a nil list becomes a one-element list; any other list grows at its end |
| Base.AppendAllTwice | lib/ecosystems/enrich.go:206-208 | appending two runs one after the other is appending them joined |
| Base.MapInPlace | lib/ecosystems/enrich_cyclonedx.go:177-179 | every slot holds f of what it held |
| GoStrings.Index | lib/deps/repo.go:88-93 | the first position where the text occurs, -1 when it does not occur |
| GoStrings.LastIndexOf | lib/deps/repo.go:264-270 | the last position of the character, -1 when it does not occur |
| GoStrings.JoinSplit | internal/utils/spdx.go:41 | joining the pieces of a split with the same separator gives the input back |
| GoStrings.SplitPiecesFree | internal/utils/spdx.go:41 | no piece of a split contains the separator |
| GoStrings.ReplaceAllIsJoinSplit | lib/deps/enrich.go:49 | replacing every occurrence is splitting on the pattern and joining with the replacement |
| GoStrings.ReplaceAllLeading | lib/scorecard/enrich.go:41 | a pattern that leads the text and does not occur again is replaced once, at the front |
| GoStrings.TrimSpace | lib/ecosystems/enrich_cyclonedx.go:178 | the result is a slice of the input with white space (Unicode's, as unicode.IsSpace has it) cut from either end only, and no white space left at either end |
| GoStrings.TrimSpaceCut | lib/ecosystems/enrich_cyclonedx.go:178 | cutting white space off the front and then off the back leaves the result in place inside the input, with only white space around it |
| GoStrings.DecimalRoundTrip | lib/deps/enrich_cyclonedx.go:30 | reading back the digits written for n gives n |
| GoStrings.ParseInt64 | lib/deps/repo.go:222 | a value is read only from a non-empty string, and it fits in an int64 |
| GoStrings.ParseItoa | lib/deps/enrich_cyclonedx.go:30-51 | an int64 formatted with Itoa parses back to itself |
| GoStrings.ParseRejectsNonDigit | lib/snyk/ratelimit.go:113 | a string with a character other than an optional leading sign and digits never parses |
| Spdx.AddRef | lib/deps/enrich_spdx.go:109 | one reference goes after the existing ones; nothing else changes |

## Left out

- Network and foreign code are parameters (oracles):
  - parsing and printing of package URLs (packageurl-go FromString and ToString);
  - the ecosyste.ms, Snyk, deps.dev and Scorecard HTTP calls and their JSON decoding;
  - url.QueryEscape and url.PathEscape;
  - the SPDX licence validator;
  - RFC 3339 time formatting, `%.2f` score formatting and `%T` type names;
  - http.ParseTime, time.Until and retryablehttp.DefaultBackoff;
  - the Snyk Advisor and Vulnerability DB URL builders, authentication and the organisation lookup.
- url.Parse: the host/path structure is concrete in GoUrl; its character checks and unescaping are an oracle.
- snykVulnerabilityDBWebURL is declared outside the core. Its value, "https://security.snyk.io", is taken from lib/enrich.go:315.
- Concurrency is not modelled: goroutines, sizedwaitgroup, mutexes and channels become sequential loops in slice order. The enrichers write disjoint slots or handles, so any interleaving gives the same document; the model does not prove that.
- The rate limiter's other goroutines are modelled only as back-offs observed between the wait loop's rounds. The token bucket is an error parameter, and the clock and timers are observations.
- Go map iteration order is unspecified. The Snyk group and answer maps are visited in the order their keys were first filed, which is one order Go may choose.
- Pointer aliasing is not modelled: components reached through several `*cdx.Component` handles, and slices shared between a by-value component copy and the original, whose `*p = append(*p, x)` may be visible through both. Go arrays written by index are sequences updated slot by slot.
- lib/snyk/enrich_cyclonedx.go and lib/enrich.go key their answer maps by cdx.Component, whose pointer fields compare by address. The model takes a component without a pointer field as its own value and one with a pointer field as the element it is: its handle in lib/snyk, its list position in lib/enrich.go. So a component holding a pointer is never merged with another, and equal pointer-free components share one entry. A document built in code whose components share a pointer is not modelled, and the pointer fields the component type leaves out (hashes, SWID, pedigree, evidence and the like) are taken to be nil.
- The component type also leaves out Go's scalar fields other than the BOM ref, name, purl, description and author: type, MIME type, publisher, group, version, scope, copyright and CPE among them. So LibEnrich.SameKey and SnykCdx.SameKeyAt compare coarser keys than Go: two pointer-free components that differ only in such a field share one key in the model and have their vulnerabilities written once, where Go files them under two keys and writes them twice.
- SnykCdx.EnrichCycloneDX and SnykSpdx.EnrichSPDX: Go calls logger.Fatal, which ends the process, when authentication fails (lib/snyk/enrich_cyclonedx.go:82, lib/snyk/enrich_spdx.go:85) and, in the SPDX enricher, when the organisation lookup fails (lib/snyk/enrich_spdx.go:93). The model has no process to end and returns a nil document with no request instead.
- DepsRepo.ParseVersionKey: strings.ToUpper is modelled on ASCII letters only; other letters of the purl type are left as they are, where Go would map them with Unicode case mapping (lib/deps/repo.go:260).
- SnykIssues.CweOf: a string is a sequence of characters, so `id[4:]` drops four characters where Go drops four bytes; the two differ only for a CWE id whose first four characters are not ASCII (lib/enrich.go:269, lib/snyk/enrich_cyclonedx.go:192).
- EcoCdx.EnrichCDXSupplier: the white space TrimSpace cuts is Unicode's, as unicode.IsSpace defines it, but strings are sequences of code points, so invalid UTF-8, which Go reads as U+FFFD, is not modelled (lib/ecosystems/enrich_cyclonedx.go:178).
- Floating point: scores are reals and only reach the document through the formatting oracle.
- Command-line handling (cobra and viper, including AddFormatFlag's registration), logging, the SBOM encoder and the OSV enricher are not part of this model.
- Go panics become preconditions. Each names the input Go would crash on:
  - EcoSpdx23.EnrichSPDXDoc requires the ecosyste.ms data to have a home page and a description (lib/ecosystems/spdx2_3.go:62, 66 dereference them);
  - EcoEnrich.EnrichSBOM and LibEnrich.EnrichSBOMWithEcosystems require every repository topic to be a string (the unchecked `topic.(string)` at lib/ecosystems/enrich.go:187);
  - LibEnrich.EnrichSBOMWithEcosystems requires a successful fetch to carry a body whose topics are strings (lib/enrich.go:175 dereferences JSON200);
  - LibEnrich.EnrichSBOMWithSnyk requires every severity to have a score and every CWE id to be at least four characters long (lib/enrich.go:269, 317);
  - SnykCdx.EnrichCycloneDX requires the same of CWE ids (lib/snyk/enrich_cyclonedx.go:192);
  - fields the Snyk code dereferences without a nil check are modelled as always present: a slot reference's title and URL, and a severity's level, version and vector (lib/snyk/enrich_cyclonedx.go:221-222, 255-257; lib/enrich.go:299-300, 321-323);
  - ScorecardCdx.EnrichCDX requires the Scorecard GET not to fail in transport (lib/scorecard/enrich_cyclonedx.go:71 closes the body of a nil response).
- SnykRateLimit.WaitKeepsDeadline: the wait never clears an expired deadline. The test at lib/snyk/package_test.go:104-115 expects it cleared; the model follows the code.
- Sbom.NoSPDXDetection: SPDX input is never identified, although the decode tests expect SPDX documents to be recognised; the model follows the code.
- DepsEnrichOld reads a deps.dev project whose counts and score are plain values. lib/deps/enrich.go was written against that older shape of the response.
- DepsRepo.GetRepoURLFromPackage: url.PathEscape of the name and version is an oracle, so the exact request URL is not modelled, only the key it is built from.
