/** The part of Go's net/url parser that decides a URL's host and path.

    url.Parse also rejects control characters, malformed percent escapes,
    bad user information and bad ports, and it percent-decodes the host and
    path. Those character-level checks and the decoding are not modelled: a
    UrlLib value supplies them. The structure (scheme, query, fragment,
    authority, user information) is modelled as the library parses it. */
module GoUrl {
  import opened Base
  import opened GoStrings

  /** The character-level part of url.Parse: whether it accepts a string,
      and how it percent-decodes a host or path. */
  datatype UrlLib = UrlLib(accepts: string -> bool, unescape: string -> string)

  /** The fields of a parsed url.URL that callers here read. */
  datatype Url = Url(scheme: string, host: string, path: string)

  predicate IsLetter(c: char) {
    'a' <= c <= 'z' || 'A' <= c <= 'Z'
  }

  /** How getScheme ends its scan at position i: None when the string has no
      scheme; Some(i) when s[i] is the colon that ends the scheme. */
  function SchemeColon(s: string, i: nat): (r: Option<nat>)
    requires i <= |s|
    ensures r.Some? ==> i <= r.value < |s| && s[r.value] == ':'
    decreases |s| - i
  {
    if i == |s| then None
    else if IsLetter(s[i]) then SchemeColon(s, i + 1)
    else if IsDigit(s[i]) || s[i] == '+' || s[i] == '-' || s[i] == '.' then
      if i == 0 then None else SchemeColon(s, i + 1)
    else if s[i] == ':' then Some(i)
    else None
  }

  /** getScheme: the scheme and the rest; a leading colon is an error
      ("missing protocol scheme"). */
  function GetScheme(s: string): Result<(string, string)> {
    match SchemeColon(s, 0)
    case None => Ok(("", s))
    case Some(i) => if i == 0 then Err("missing protocol scheme") else Ok((s[..i], s[i + 1..]))
  }

  /** s up to the first occurrence of c (strings.Cut's first result). */
  function Before(s: string, c: char): (r: string)
    ensures HasPrefix(s, r) && c !in r
  {
    var i := FirstIndexOf(s, c);
    if i < 0 then s else s[..i]
  }

  /** url.Parse, as far as the host and path are concerned. */
  function Parse(lib: UrlLib, raw: string): Result<Url> {
    if !lib.accepts(raw) then Err("invalid URL")
    else
      var u := Before(raw, '#');
      if u == "*" then Ok(Url("", "", "*"))
      else match GetScheme(u)
        case Err(e) => Err(e)
        case Ok((scheme, rest)) => ParseAfterScheme(lib, ToLowerAscii(scheme), Before(rest, '?'))
  }

  /** The rest of url.Parse once the scheme is known and the query cut off:
      an opaque URL, a relative path, or an authority and a path. */
  function ParseAfterScheme(lib: UrlLib, scheme: string, rest: string): Result<Url> {
    if !HasPrefix(rest, "/") && scheme != "" then Ok(Url(scheme, "", ""))
    else if !HasPrefix(rest, "/") && Contains(Before(rest, '/'), ":") then
      Err("first path segment in URL cannot contain colon")
    else if HasPrefix(rest, "//") && (scheme != "" || !HasPrefix(rest, "///")) then
      var authority := Before(rest[2..], '/');
      var path := rest[2 + |authority|..];
      Ok(Url(scheme, lib.unescape(HostOf(authority)), lib.unescape(path)))
    else Ok(Url(scheme, "", lib.unescape(rest)))
  }

  /** parseAuthority: the host is what follows the last '@'; a port stays
      part of it. */
  function HostOf(authority: string): string {
    authority[LastIndexOf(authority, '@') + 1..]
  }

  function LowerChar(c: char): char {
    if 'A' <= c <= 'Z' then ((c as int) + 32) as char else c
  }

  /** strings.ToLower on an ASCII scheme. */
  function ToLowerAscii(s: string): (r: string)
    ensures |r| == |s|
  {
    seq(|s|, i requires 0 <= i < |s| => LowerChar(s[i]))
  }

  /** A URL of the form scheme "://" host path, with a plain host and path
      that url.Parse accepts, parses to that host and path. */
  lemma ParseHierarchical(lib: UrlLib, scheme: string, host: string, path: string)
    requires |scheme| > 0 && forall i :: 0 <= i < |scheme| ==> 'a' <= scheme[i] <= 'z'
    requires '/' !in host && '@' !in host && '#' !in host && '?' !in host
    requires '#' !in path && '?' !in path
    requires path == "" || path[0] == '/'
    requires lib.accepts(scheme + "://" + host + path)
    requires lib.unescape(host) == host && lib.unescape(path) == path
    ensures Parse(lib, scheme + "://" + host + path) == Ok(Url(scheme, host, path))
  {
    var rest := "//" + host + path;
    var raw := scheme + ":" + rest;
    assert raw == scheme + "://" + host + path;
    assert '#' !in scheme;
    assert '#' !in raw;
    assert Before(raw, '#') == raw;
    SchemeScan(raw, scheme, 0);
    assert raw[..|scheme|] == scheme && raw[|scheme| + 1..] == rest;
    assert GetScheme(raw) == Ok((scheme, rest));
    assert ToLowerAscii(scheme) == scheme;
    assert '?' !in rest;
    assert Before(rest, '?') == rest;
    AfterSchemeHierarchical(lib, scheme, host, path);
  }

  lemma AfterSchemeHierarchical(lib: UrlLib, scheme: string, host: string, path: string)
    requires scheme != ""
    requires '/' !in host && '@' !in host
    requires path == "" || path[0] == '/'
    requires lib.unescape(host) == host && lib.unescape(path) == path
    ensures ParseAfterScheme(lib, scheme, "//" + host + path) == Ok(Url(scheme, host, path))
  {
    var rest := "//" + host + path;
    assert rest[..2] == "//";
    assert rest[2..] == host + path;
    AuthorityIsHost(host, path);
    assert rest[2 + |host|..] == path;
    assert LastIndexOf(host, '@') == -1;
    assert host[0..] == host;
  }

  lemma {:induction false} SchemeScan(raw: string, scheme: string, i: nat)
    requires i <= |scheme| && |scheme| > 0 && HasPrefix(raw, scheme + ":")
    requires forall k :: 0 <= k < |scheme| ==> 'a' <= scheme[k] <= 'z'
    ensures SchemeColon(raw, i) == Some(|scheme|)
    decreases |scheme| - i
  {
    assert raw[..|scheme| + 1] == scheme + ":";
    assert raw[|scheme|] == ':';
    if i < |scheme| {
      assert raw[i] == scheme[i];
      SchemeScan(raw, scheme, i + 1);
    }
  }

  lemma AuthorityIsHost(host: string, path: string)
    requires '/' !in host && (path == "" || path[0] == '/')
    ensures Before(host + path, '/') == host
  {
    var s := host + path;
    var i := FirstIndexOf(s, '/');
    if path == "" {
      assert s == host;
    } else {
      assert s[|host|] == '/';
      assert s[..|host|] == host;
      assert forall k :: 0 <= k < |host| ==> s[k] == host[k];
    }
  }
}
