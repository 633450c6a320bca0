/** The --format command-line flag (internal/flags/format.go): a string
    flag value that accepts exactly three names, and the mapping from those
    names to SBOM formats. The cobra/viper binding is not modelled. */
module Flags {
  import opened Base
  import opened GoStrings
  import Sbom

  /** The accepted flag values. */
  const FlagCycloneDXJSON: string := "cyclonedx+json"
  const FlagCycloneDXXML: string := "cyclonedx+xml"
  const FlagSPDXJSON: string := "spdx2_3+json"

  const Accepted: seq<string> := [FlagCycloneDXJSON, FlagCycloneDXXML, FlagSPDXJSON]

  /** The error Set gives for any other value. */
  const MustBeOneOf: string := "must be one of " + Join(Accepted, ", ")

  /** The flag value, updated in place by Set. */
  class FormatFlagVal {
    var value: string

    /** The zero value. */
    constructor()
      ensures value == ""
    {
      value := "";
    }

    /** String: the stored value. */
    function String(): (s: string)
      reads this
      ensures s == value
    {
      value
    }

    /** Type: the placeholder shown in the help text. */
    function Type(): (s: string)
      ensures s == "<sbom-format>"
    {
      "<sbom-format>"
    }

    /** Set: an accepted value is stored; any other value is an error and
        leaves the flag as it was. */
    method Set(v: string) returns (err: Option<string>)
      modifies this
      ensures v in Accepted ==> err.None? && value == v
      ensures v !in Accepted ==> err == Some(MustBeOneOf) && value == old(value)
    {
      if v == FlagCycloneDXJSON || v == FlagCycloneDXXML || v == FlagSPDXJSON {
        value := v;
        return None;
      }
      return Some(MustBeOneOf);
    }
  }

  /** FlagToSBOMFormat: the lookup in flagToSBOMFormat; a value the map
      does not hold reads as the zero format "". */
  function FlagToSBOMFormat(f: string): (r: string)
    ensures f == FlagCycloneDXJSON ==> r == Sbom.FormatCycloneDX14JSON
    ensures f == FlagCycloneDXXML ==> r == Sbom.FormatCycloneDX14XML
    ensures f == FlagSPDXJSON ==> r == Sbom.FormatSPDX23JSON
    ensures f !in Accepted ==> r == ""
  {
    if f == FlagCycloneDXJSON then Sbom.FormatCycloneDX14JSON
    else if f == FlagCycloneDXXML then Sbom.FormatCycloneDX14XML
    else if f == FlagSPDXJSON then Sbom.FormatSPDX23JSON
    else ""
  }

  /** Whatever the flag held, after a successful Set it maps to a real
      format, and different accepted values map to different formats. */
  lemma SetValuesMap(f: string, g: string)
    requires f in Accepted && g in Accepted
    ensures FlagToSBOMFormat(f) != ""
    ensures f != g ==> FlagToSBOMFormat(f) != FlagToSBOMFormat(g)
  {
  }
}
