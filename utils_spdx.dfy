/** Purl extraction from SPDX packages and the splitting of ecosyste.ms
    licence strings (internal/utils/spdx.go). */
module UtilsSpdx {
  import opened Base
  import opened GoStrings
  import opened Spdx
  import opened Purl
  import opened EcoTypes

  /** The locator of the first external reference whose type is "purl". */
  function FirstPurlLocator(refs: seq<ExternalRef>): Option<string> {
    if |refs| == 0 then None
    else if refs[0].refType == "purl" then Some(refs[0].locator)
    else FirstPurlLocator(refs[1..])
  }

  /** FirstPurlLocator finds exactly the first "purl" reference. */
  lemma {:induction false} FirstPurlLocatorIsFirst(refs: seq<ExternalRef>)
    ensures FirstPurlLocator(refs).None? <==> forall i :: 0 <= i < |refs| ==> refs[i].refType != "purl"
    ensures FirstPurlLocator(refs).Some? ==>
      exists i :: (0 <= i < |refs| && refs[i].refType == "purl"
        && FirstPurlLocator(refs).value == refs[i].locator
        && forall j :: 0 <= j < i ==> refs[j].refType != "purl")
  {
    if |refs| > 0 && refs[0].refType != "purl" {
      FirstPurlLocatorIsFirst(refs[1..]);
      assert forall i :: 1 <= i < |refs| ==> refs[i] == refs[1..][i - 1];
      if FirstPurlLocator(refs).Some? {
        var i :| 0 <= i < |refs[1..]| && refs[1..][i].refType == "purl"
          && FirstPurlLocator(refs[1..]).value == refs[1..][i].locator
          && forall j :: 0 <= j < i ==> refs[1..][j].refType != "purl";
        assert refs[i + 1] == refs[1..][i];
      }
    } else if |refs| > 0 {
      assert refs[0].refType == "purl";
    }
  }

  /** The references after the first "purl" reference play no part. */
  lemma {:induction false} FirstPurlLocatorIgnoresLater(refs: seq<ExternalRef>, later: seq<ExternalRef>)
    requires FirstPurlLocator(refs).Some?
    ensures FirstPurlLocator(refs + later) == FirstPurlLocator(refs)
  {
    if refs[0].refType != "purl" {
      FirstPurlLocatorIgnoresLater(refs[1..], later);
      assert (refs + later)[1..] == refs[1..] + later;
    }
  }

  /** What GetPurlFromSPDXPackage returns. */
  function PurlOf(codec: Codec, pkg: Package): Result<PackageURL> {
    var p := FirstPurlLocator(pkg.externalRefs).GetOr("");
    if p == "" then Err("no purl on package " + pkg.name) else codec.parse(p)
  }

  /** GetPurlFromSPDXPackage: the locator of the first "purl" reference,
      parsed; no such reference, or an empty locator, is an error naming the
      package, and a parse error is passed on. */
  method GetPurlFromSPDXPackage(codec: Codec, pkg: Package) returns (r: Result<PackageURL>)
    ensures r == PurlOf(codec, pkg)
    ensures FirstPurlLocator(pkg.externalRefs).None? ==> r == Err("no purl on package " + pkg.name)
    ensures FirstPurlLocator(pkg.externalRefs) == Some("") ==> r == Err("no purl on package " + pkg.name)
    ensures FirstPurlLocator(pkg.externalRefs).Some? && FirstPurlLocator(pkg.externalRefs).value != "" ==>
      r == codec.parse(FirstPurlLocator(pkg.externalRefs).value)
  {
    var p := "";
    var i := 0;
    while i < |pkg.externalRefs|
      invariant 0 <= i <= |pkg.externalRefs|
      invariant p == ""
      invariant FirstPurlLocator(pkg.externalRefs) == FirstPurlLocator(pkg.externalRefs[i..])
    {
      var ref := pkg.externalRefs[i];
      if ref.refType == "purl" {
        p := ref.locator;
        break;
      }
      assert pkg.externalRefs[i..][1..] == pkg.externalRefs[i + 1..];
      i := i + 1;
    }
    assert i == |pkg.externalRefs| ==> p == FirstPurlLocator(pkg.externalRefs).GetOr("");
    if p == "" {
      return Err("no purl on package " + pkg.name);
    }
    r := codec.parse(p);
  }

  // ----- licences -----

  /** The items of xs that do not occur in drop, in order, duplicates kept. */
  function Without(xs: seq<string>, drop: seq<string>): (r: seq<string>)
    ensures |r| <= |xs|
  {
    if |xs| == 0 then []
    else if xs[|xs| - 1] in drop then Without(xs[..|xs| - 1], drop)
    else Without(xs[..|xs| - 1], drop) + [xs[|xs| - 1]]
  }

  /** Without keeps exactly the items not dropped, as many times as they occur. */
  lemma {:induction false} WithoutMembers(xs: seq<string>, drop: seq<string>)
    ensures forall x :: x in Without(xs, drop) <==> x in xs && x !in drop
    ensures forall x :: x !in drop ==> multiset(Without(xs, drop))[x] == multiset(xs)[x]
    ensures forall x :: x in drop ==> multiset(Without(xs, drop))[x] == 0
  {
    if |xs| > 0 {
      var init := xs[..|xs| - 1];
      WithoutMembers(init, drop);
      assert xs == init + [xs[|xs| - 1]];
    }
  }

  /** The licence string split on "," exactly, or None when there is no string
      to split (no version data, nil or empty Licenses). */
  function LicenseItems(data: Option<EcoVersion>): Option<seq<string>> {
    if data.None? || data.value.licenses.None? || data.value.licenses.value == "" then None
    else Some(Split(data.value.licenses.value, ","))
  }

  /** GetSPDXLicensesFromEcosystemsLicense. `validate` stands for
      spdxexp.ValidateLicenses and returns the items it rejects. */
  method GetSPDXLicensesFromEcosystemsLicense(data: Option<EcoVersion>, validate: seq<string> -> seq<string>)
    returns (valid: seq<string>, invalid: seq<string>)
    ensures LicenseItems(data).None? ==> valid == [] && invalid == []
    ensures LicenseItems(data).Some? ==>
      invalid == validate(LicenseItems(data).value) && valid == Without(LicenseItems(data).value, invalid)
  {
    if data.None? || data.value.licenses.None? || data.value.licenses.value == "" {
      return [], [];
    }
    var licenses := Split(data.value.licenses.value, ",");
    invalid := validate(licenses);
    valid := [];
    var i := 0;
    while i < |licenses|
      invariant 0 <= i <= |licenses|
      invariant valid == Without(licenses[..i], invalid)
    {
      assert licenses[..i + 1][..i] == licenses[..i];
      if licenses[i] !in invalid {
        valid := valid + [licenses[i]];
      }
      i := i + 1;
    }
    assert licenses[..i] == licenses;
  }

  /** The pieces are the licence string cut at every comma, with nothing
      trimmed: joined back with "," they give the string. */
  lemma LicenseItemsExact(data: Option<EcoVersion>)
    requires LicenseItems(data).Some?
    ensures Join(LicenseItems(data).value, ",") == data.value.licenses.value
    ensures forall k :: 0 <= k < |LicenseItems(data).value| ==> !Contains(LicenseItems(data).value[k], ",")
  {
    JoinSplit(data.value.licenses.value, ",");
    SplitPiecesFree(data.value.licenses.value, ",");
  }
}
