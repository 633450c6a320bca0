/** Package URLs (package-url specification). Parsing and rendering belong to
    the packageurl-go library, which is not part of this model: the
    enrichers receive them as a codec. */
module Purl {
  import opened Base

  datatype PackageURL = PackageURL(
    typ: string,
    namespace: string,
    name: string,
    version: string,
    qualifiers: seq<(string, string)>,
    subpath: string)

  /** packageurl.FromString and PackageURL.ToString. */
  datatype Codec = Codec(parse: string -> Result<PackageURL>, render: PackageURL -> string)

  /** The zero PackageURL, which `purl, _ := packageurl.FromString(s)` leaves
      behind when parsing fails. */
  const Zero: PackageURL := PackageURL("", "", "", "", [], "")

  /** `purl, _ := packageurl.FromString(s)`: the error is dropped. */
  function ParseOrZero(codec: Codec, s: string): (p: PackageURL)
    ensures codec.parse(s).Ok? ==> p == codec.parse(s).value
    ensures codec.parse(s).Err? ==> p == Zero
  {
    match codec.parse(s)
    case Ok(v) => v
    case Err(_) => Zero
  }

  /** purl.ToString(): the key under which caches and groups file a package. */
  function Key(codec: Codec, p: PackageURL): string {
    codec.render(p)
  }
}
