/** SBOM documents and their decoding (lib/sbom/decode.go, with the
    format names of lib/sbom/formats.go and the document of
    lib/sbom/sbom.go): the format is sniffed from byte substrings, and the
    matching decoder fills a fresh document. The decoders themselves are
    oracles. */
module Sbom {
  import opened Base
  import opened GoStrings
  import Cdx
  import Spdx

  newtype byte = x: int | 0 <= x < 256

  /** The SBOMFormat names. */
  const FormatCycloneDX14JSON: string := "CycloneDX 1.4 JSON"
  const FormatCycloneDX14XML: string := "CycloneDX 1.4 XML"
  const FormatSPDX23JSON: string := "SPDX 2.3 JSON"

  const UnidentifiedError: string := "could not identify SBOM format"
  const DecodeErrorPrefix: string := "could not decode input: "

  /** The document a SBOMDocument holds, by its dynamic type. */
  datatype BomValue = CycloneDXBom(cdx: Cdx.Bom) | SPDXDoc(spdx: Spdx.Document) | OtherBom

  /** SBOMDocument without its encoder. */
  datatype SBOMDocument = SBOMDocument(bom: BomValue, format: string)

  /** The bytes of a text whose characters are single bytes. */
  function Bytes(s: string): (b: seq<byte>)
    requires forall i :: 0 <= i < |s| ==> s[i] as int < 256
    ensures |b| == |s| && forall i :: 0 <= i < |s| ==> b[i] as int == s[i] as int
  {
    seq(|s|, i requires 0 <= i < |s| => s[i] as int as byte)
  }

  /** bytes.Contains with a text pattern. */
  predicate HasText(b: seq<byte>, s: string)
    requires forall i :: 0 <= i < |s| ==> s[i] as int < 256
  {
    Contains(b, Bytes(s))
  }

  /** The markers of the two CycloneDX encodings. */
  predicate JSONMarkers(b: seq<byte>) {
    HasText(b, "bomFormat") && HasText(b, "CycloneDX")
  }

  predicate XMLMarkers(b: seq<byte>) {
    HasText(b, "xmlns") && HasText(b, "cyclonedx")
  }

  /** identifySBOMFormat: JSON when both JSON markers occur, otherwise XML
      when both XML markers occur, otherwise the error. */
  function IdentifySBOMFormat(b: seq<byte>): (r: Result<string>)
    ensures r.Ok? <==> JSONMarkers(b) || XMLMarkers(b)
    ensures JSONMarkers(b) ==> r == Ok(FormatCycloneDX14JSON)
    ensures !JSONMarkers(b) && XMLMarkers(b) ==> r == Ok(FormatCycloneDX14XML)
    ensures r.Err? ==> r.error == UnidentifiedError
  {
    if JSONMarkers(b) then Ok(FormatCycloneDX14JSON)
    else if XMLMarkers(b) then Ok(FormatCycloneDX14XML)
    else Err(UnidentifiedError)
  }

  /** No input is identified as SPDX: only the two CycloneDX formats are
      ever sniffed. */
  lemma NoSPDXDetection(b: seq<byte>)
    ensures IdentifySBOMFormat(b) != Ok(FormatSPDX23JSON)
    ensures IdentifySBOMFormat(b).Ok? ==>
      IdentifySBOMFormat(b).value == FormatCycloneDX14JSON || IdentifySBOMFormat(b).value == FormatCycloneDX14XML
  {
  }

  /** The decoders of lib/sbom/cyclonedx.go. */
  datatype Decoders = Decoders(json: seq<byte> -> Result<Cdx.Bom>, xml: seq<byte> -> Result<Cdx.Bom>)

  /** The decoding of one identified CycloneDX format. */
  function DecodeWith(decode: seq<byte> -> Result<Cdx.Bom>, format: string, b: seq<byte>): Result<SBOMDocument> {
    match decode(b)
    case Err(e) => Err(DecodeErrorPrefix + e)
    case Ok(bom) => Ok(SBOMDocument(CycloneDXBom(bom), format))
  }

  /** DecodeSBOMDocument. */
  function DecodeSBOMDocument(d: Decoders, b: seq<byte>): (r: Result<SBOMDocument>)
    ensures IdentifySBOMFormat(b).Err? ==> r == Err(UnidentifiedError)
    ensures r.Ok? ==> r.value.format == IdentifySBOMFormat(b).value && r.value.bom.CycloneDXBom?
    ensures IdentifySBOMFormat(b) == Ok(FormatCycloneDX14JSON) ==>
      (r.Ok? <==> d.json(b).Ok?) && (r.Ok? ==> r.value.bom.cdx == d.json(b).value)
      && (r.Err? ==> r.error == DecodeErrorPrefix + d.json(b).error)
    ensures IdentifySBOMFormat(b) == Ok(FormatCycloneDX14XML) ==>
      (r.Ok? <==> d.xml(b).Ok?) && (r.Ok? ==> r.value.bom.cdx == d.xml(b).value)
      && (r.Err? ==> r.error == DecodeErrorPrefix + d.xml(b).error)
  {
    match IdentifySBOMFormat(b)
    case Err(e) => Err(e)
    case Ok(format) =>
      if format == FormatCycloneDX14JSON then DecodeWith(d.json, format, b)
      else if format == FormatCycloneDX14XML then DecodeWith(d.xml, format, b)
      else Err("no decoder for format " + format)
  }

  /** Every failure is the identification error or a wrapped decoder
      error: the "no decoder" branch is never taken. */
  lemma DecodeErrors(d: Decoders, b: seq<byte>)
    ensures DecodeSBOMDocument(d, b).Err? ==>
      DecodeSBOMDocument(d, b).error == UnidentifiedError || HasPrefix(DecodeSBOMDocument(d, b).error, DecodeErrorPrefix)
  {
    var r := DecodeSBOMDocument(d, b);
    if r.Err? && r.error != UnidentifiedError {
      var e := if IdentifySBOMFormat(b).value == FormatCycloneDX14JSON then d.json(b).error else d.xml(b).error;
      assert r.error == DecodeErrorPrefix + e;
      assert (DecodeErrorPrefix + e)[..|DecodeErrorPrefix|] == DecodeErrorPrefix;
    }
  }
}
