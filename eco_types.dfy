/** The ecosyste.ms packages API responses the enrichers read. */
module EcoTypes {
  import opened Base

  /** Untyped JSON, as the `repo_metadata` object decodes into Go's
      map[string]interface{}. */
  datatype Json =
    | JNull
    | JBool(b: bool)
    | JNumber(n: real)
    | JString(s: string)
    | JArray(items: seq<Json>)
    | JObject(fields: map<string, Json>)

  /** A point in time; its RFC 3339 rendering in UTC is given by the caller. */
  datatype Time = Time(unixNanos: int)

  /** packages.Package */
  datatype EcoPackage = EcoPackage(
    description: Option<string>,
    normalizedLicenses: seq<string>,
    homepage: Option<string>,
    registryUrl: Option<string>,
    repositoryUrl: Option<string>,
    documentationUrl: Option<string>,
    firstReleasePublishedAt: Option<Time>,
    latestReleasePublishedAt: Option<Time>,
    repoMetadata: Option<map<string, Json>>)

  /** packages.Version */
  datatype EcoVersion = EcoVersion(licenses: Option<string>)

  /** A decoded response: the HTTP status and the body when it was a 200. */
  datatype Response<T> = Response(status: int, json200: Option<T>)

  /** A field of the repository metadata's `owner_record` object, when that
      is an object and the field a string. */
  function OwnerString(meta: map<string, Json>, field: string): (r: Option<string>)
    ensures r.Some? <==> ("owner_record" in meta && meta["owner_record"].JObject?
      && field in meta["owner_record"].fields && meta["owner_record"].fields[field].JString?)
    ensures r.Some? ==> r.value == meta["owner_record"].fields[field].s
  {
    if "owner_record" in meta && meta["owner_record"].JObject? then
      var rec := meta["owner_record"].fields;
      if field in rec && rec[field].JString? then Some(rec[field].s) else None
    else None
  }
}
